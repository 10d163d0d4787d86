/** The terminal output of the explorer: the four message styles, the aligned table
    of `PrintTable`, and the key/value listing of `PrintKeyValue`. Colours are not
    part of the model; a printed line is its text. Widths are Go byte lengths. */
module Ui {
  import opened Wrappers
  import opened Text
  import opened Platform

  const InfoPrefix := "\U{2139}\U{FE0F}  "
  const SuccessPrefix := "\U{2705} "
  const ErrorPrefix := "\U{274C} "
  const NoDataFound := "\U{26A0}\U{FE0F}  No data found."
  const NoDataAvailable := "\U{26A0}\U{FE0F}  No data available."

  predicate IsMessage(e: Event)
  {
    e.Info? || e.Success? || e.Failure?
  }

  /** The line `PrintInfo`, `PrintSuccess` or `PrintError` prints for a message. */
  function MessageLine(e: Event): string
    requires IsMessage(e)
  {
    match e
    case Info(text) => InfoPrefix + text
    case Success(text) => SuccessPrefix + text
    case Failure(text) => ErrorPrefix + text
  }

  /** The lines `PrintHeader` prints: an empty line, then the title between `===` marks. */
  function HeaderLines(title: string): (lines: seq<string>)
    ensures |lines| == 2 && lines[0] == "" && HasPrefix(lines[1], "=== ") && HasSuffix(lines[1], " ===")
  {
    ["", "=== " + title + " ==="]
  }

  /** Reads a printed message line back: its style from its prefix, then its text. */
  function ParseMessage(line: string): Option<Event>
  {
    if HasPrefix(line, InfoPrefix) then Some(Info(line[|InfoPrefix|..]))
    else if HasPrefix(line, SuccessPrefix) then Some(Success(line[|SuccessPrefix|..]))
    else if HasPrefix(line, ErrorPrefix) then Some(Failure(line[|ErrorPrefix|..]))
    else None
  }

  /** A printed message shows both its style and its whole text: reading it back
      gives the message. */
  lemma MessageRoundTrip(e: Event)
    requires IsMessage(e)
    ensures ParseMessage(MessageLine(e)) == Some(e)
  {
    var line := MessageLine(e);
    match e
    case Info(text) =>
      assert line[..|InfoPrefix|] == InfoPrefix && line[|InfoPrefix|..] == text;
    case Success(text) =>
      assert line[0] == SuccessPrefix[0] && line[0] != InfoPrefix[0];
      assert line[..|SuccessPrefix|] == SuccessPrefix && line[|SuccessPrefix|..] == text;
    case Failure(text) =>
      assert line[0] == ErrorPrefix[0] && line[0] != InfoPrefix[0] && line[0] != SuccessPrefix[0];
      assert line[..|ErrorPrefix|] == ErrorPrefix && line[|ErrorPrefix|..] == text;
  }

  // ---------------------------------------------------------------------------
  // PrintTable

  /** The width of column `i`: the byte length of its header, widened to that of any
      longer cell of that column; rows too short to have column `i` do not count. */
  function ColumnWidth(header: string, rows: seq<seq<string>>, i: nat): nat
  {
    if rows == [] then ByteLen(header)
    else
      var w := ColumnWidth(header, rows[..|rows| - 1], i);
      var last := rows[|rows| - 1];
      if i < |last| && ByteLen(last[i]) > w then ByteLen(last[i]) else w
  }

  /** One width per header. */
  function Widths(headers: seq<string>, rows: seq<seq<string>>): seq<nat>
  {
    seq(|headers|, i requires 0 <= i < |headers| => ColumnWidth(headers[i], rows, i))
  }

  /** A column is as wide as its header and as every cell in it. */
  lemma {:induction false} ColumnWidthBound(header: string, rows: seq<seq<string>>, i: nat)
    ensures ByteLen(header) <= ColumnWidth(header, rows, i)
    ensures forall k :: 0 <= k < |rows| && i < |rows[k]| ==> ByteLen(rows[k][i]) <= ColumnWidth(header, rows, i)
  {
    if rows != [] {
      var init := rows[..|rows| - 1];
      ColumnWidthBound(header, init, i);
      assert forall k :: 0 <= k < |init| ==> init[k] == rows[k];
    }
  }

  /** ... and no wider: its width is that of its header or of one of its cells. */
  lemma {:induction false} ColumnWidthAttained(header: string, rows: seq<seq<string>>, i: nat)
    ensures ColumnWidth(header, rows, i) == ByteLen(header) ||
      exists k :: 0 <= k < |rows| && i < |rows[k]| && ColumnWidth(header, rows, i) == ByteLen(rows[k][i])
  {
    if rows != [] {
      var init := rows[..|rows| - 1];
      ColumnWidthAttained(header, init, i);
      if ColumnWidth(header, rows, i) != ByteLen(header) && ColumnWidth(header, rows, i) == ColumnWidth(header, init, i) {
        var k :| 0 <= k < |init| && i < |init[k]| && ColumnWidth(header, init, i) == ByteLen(init[k][i]);
        assert init[k] == rows[k];
      }
    }
  }

  /** Counting the row after the first `r` widens a column only to that row's cell. */
  lemma ColumnWidthStep(header: string, rows: seq<seq<string>>, r: nat, i: nat)
    requires r < |rows|
    ensures ColumnWidth(header, rows[..r + 1], i) ==
      if i < |rows[r]| && ByteLen(rows[r][i]) > ColumnWidth(header, rows[..r], i) then ByteLen(rows[r][i])
      else ColumnWidth(header, rows[..r], i)
  {
    assert rows[..r + 1][..r] == rows[..r];
  }

  /** The two width loops of `PrintTable`: headers first, then every cell of every row
      that falls under a header. */
  method ComputeWidths(headers: seq<string>, rows: seq<seq<string>>) returns (ws: seq<nat>)
    ensures ws == Widths(headers, rows)
  {
    var widths := new nat[|headers|];
    for i := 0 to |headers|
      invariant forall j :: 0 <= j < i ==> widths[j] == ByteLen(headers[j])
    {
      widths[i] := ByteLen(headers[i]);
    }
    assert rows[..0] == [];
    for r := 0 to |rows|
      invariant forall j :: 0 <= j < widths.Length ==> widths[j] == ColumnWidth(headers[j], rows[..r], j)
    {
      var row := rows[r];
      forall j | 0 <= j < widths.Length {
        ColumnWidthStep(headers[j], rows, r, j);
      }
      for i := 0 to |row|
        invariant forall j :: 0 <= j < widths.Length ==>
          widths[j] == if j < i then ColumnWidth(headers[j], rows[..r + 1], j) else ColumnWidth(headers[j], rows[..r], j)
      {
        if i < widths.Length && ByteLen(row[i]) > widths[i] {
          widths[i] := ByteLen(row[i]);
        }
      }
    }
    assert rows[..|rows|] == rows;
    ws := widths[..];
  }

  /** Every cell under a header fits its column: the padding `printRow` computes is
      never negative (`strings.Repeat` panics on a negative count). */
  predicate Fits(row: seq<string>, widths: seq<nat>)
  {
    forall i :: 0 <= i < |row| && i < |widths| ==> ByteLen(row[i]) <= widths[i]
  }

  /** Cell `i` of a row as `printRow` lays it out: padded with spaces to its column's
      width; a cell beyond the last column is left as it is. */
  function PaddedCell(cell: string, widths: seq<nat>, i: nat): string
    requires i < |widths| ==> ByteLen(cell) <= widths[i]
  {
    if i < |widths| then cell + Repeat(' ', widths[i] - ByteLen(cell)) else cell
  }

  function Cells(row: seq<string>, widths: seq<nat>): seq<string>
    requires Fits(row, widths)
  {
    seq(|row|, i requires 0 <= i < |row| => PaddedCell(row[i], widths, i))
  }

  /** The line `printRow` prints: the laid-out cells separated by two spaces. */
  function RowLine(row: seq<string>, widths: seq<nat>): string
    requires Fits(row, widths)
  {
    Join(Cells(row, widths), "  ")
  }

  /** `printRow`: lays out the cells one by one, then joins them. */
  method PrintRow(row: seq<string>, widths: seq<nat>) returns (line: string)
    requires Fits(row, widths)
    ensures line == RowLine(row, widths)
  {
    var parts: seq<string> := [];
    for i := 0 to |row|
      invariant parts == Cells(row, widths)[..i]
    {
      var pad := "";
      if i < |widths| {
        pad := Repeat(' ', widths[i] - ByteLen(row[i]));
      }
      assert Cells(row, widths)[i] == row[i] + pad;
      assert Cells(row, widths)[..i + 1] == Cells(row, widths)[..i] + [Cells(row, widths)[i]];
      parts := parts + [row[i] + pad];
    }
    assert Cells(row, widths)[..|row|] == Cells(row, widths);
    line := Join(parts, "  ");
  }

  /** A laid-out cell under a column is exactly as wide as the column. */
  lemma PaddedWidth(cell: string, widths: seq<nat>, i: nat)
    requires i < |widths| && ByteLen(cell) <= widths[i]
    ensures ByteLen(PaddedCell(cell, widths, i)) == widths[i]
  {
    ByteLenConcat(cell, Repeat(' ', widths[i] - ByteLen(cell)));
    ByteLenRepeat(' ', widths[i] - ByteLen(cell));
  }

  /** The byte offset at which column `c` starts: the widths of the columns before it,
      each followed by the two-space gap. */
  function ColumnStart(widths: seq<nat>, c: nat): nat
    requires c <= |widths|
  {
    if c == 0 then 0 else ColumnStart(widths, c - 1) + widths[c - 1] + 2
  }

  /** The part of a row's line before its cell `c`. */
  function RowPrefix(row: seq<string>, widths: seq<nat>, c: nat): string
    requires Fits(row, widths) && c <= |row|
  {
    if c == 0 then "" else RowPrefix(row, widths, c - 1) + PaddedCell(row[c - 1], widths, c - 1) + "  "
  }

  lemma {:induction false} RowPrefixJoin(row: seq<string>, widths: seq<nat>, c: nat)
    requires Fits(row, widths) && 1 <= c <= |row|
    ensures RowPrefix(row, widths, c) == Join(Cells(row, widths)[..c], "  ") + "  "
  {
    var cells := Cells(row, widths);
    if c == 1 {
      assert cells[..1] == [cells[0]];
    } else {
      RowPrefixJoin(row, widths, c - 1);
      assert cells[..c] == cells[..c - 1] + [cells[c - 1]];
      JoinAppend(cells[..c - 1], cells[c - 1], "  ");
    }
  }

  lemma {:induction false} RowPrefixWidth(row: seq<string>, widths: seq<nat>, c: nat)
    requires Fits(row, widths) && c <= |row| && c <= |widths|
    ensures ByteLen(RowPrefix(row, widths, c)) == ColumnStart(widths, c)
  {
    if c > 0 {
      RowPrefixWidth(row, widths, c - 1);
      RowPrefixStep(row, widths, c);
    }
  }

  /** Each cell under a column widens the prefix by the column and its gap. */
  lemma RowPrefixStep(row: seq<string>, widths: seq<nat>, c: nat)
    requires Fits(row, widths) && 0 < c <= |row| && c <= |widths|
    ensures ByteLen(RowPrefix(row, widths, c)) == ByteLen(RowPrefix(row, widths, c - 1)) + widths[c - 1] + 2
  {
    var cell := PaddedCell(row[c - 1], widths, c - 1);
    PaddedWidth(row[c - 1], widths, c - 1);
    PrefixStep(RowPrefix(row, widths, c - 1), cell);
  }

  /** A prefix grows by one cell and the two-space gap. */
  lemma PrefixStep(pre: string, cell: string)
    ensures ByteLen(pre + cell + "  ") == ByteLen(pre) + ByteLen(cell) + 2
  {
    ByteLenConcat(pre, cell);
    ByteLenConcat(pre + cell, "  ");
    assert "  "[1..] == " " && " "[1..] == "";
  }

  /** Cell `c` of a row is printed right after the row's prefix up to `c`. */
  lemma RowLineAt(row: seq<string>, widths: seq<nat>, c: nat)
    requires Fits(row, widths) && c < |row|
    ensures HasPrefix(RowLine(row, widths), RowPrefix(row, widths, c) + row[c])
  {
    var cells := Cells(row, widths);
    var pre := RowPrefix(row, widths, c);
    var rest := Join(cells[c..], "  ");
    if c == 0 {
      JoinStartsWith(cells, "  ");
      assert RowLine(row, widths) == rest;
    } else {
      JoinAt(cells, c, "  ");
      RowPrefixJoin(row, widths, c);
      assert RowLine(row, widths) == pre + rest;
      JoinStartsWith(cells[c..], "  ");
    }
    assert HasPrefix(rest, cells[c]);
    assert HasPrefix(cells[c], row[c]);
    assert rest[..|row[c]|] == row[c] by {
      assert rest[..|row[c]|] == rest[..|cells[c]|][..|row[c]|];
    }
    assert (pre + rest)[..|pre + row[c]|] == pre + row[c] by {
      assert (pre + rest)[..|pre|] == pre;
      assert (pre + rest)[|pre|..|pre + row[c]|] == rest[..|row[c]|];
    }
  }

  /** Every cell of a laid-out row begins at its column's start offset, whatever the
      row: this is what keeps the columns of a table aligned. */
  lemma RowColumnAligned(row: seq<string>, widths: seq<nat>, c: nat)
    requires Fits(row, widths) && c < |row| && c <= |widths|
    ensures var pre := RowPrefix(row, widths, c);
      HasPrefix(RowLine(row, widths), pre + row[c]) && ByteLen(pre) == ColumnStart(widths, c)
  {
    RowLineAt(row, widths, c);
    RowPrefixWidth(row, widths, c);
  }

  /** The separator row: one run of dashes per column, as wide as the column. */
  function Separators(widths: seq<nat>): (sep: seq<string>)
  {
    seq(|widths|, i requires 0 <= i < |widths| => Repeat('-', widths[i]))
  }

  /** Widths computed from a header and its rows fit the header, the separators
      and every row. */
  lemma WidthsFit(headers: seq<string>, rows: seq<seq<string>>)
    ensures var ws := Widths(headers, rows);
      Fits(headers, ws) && Fits(Separators(ws), ws) && forall k :: 0 <= k < |rows| ==> Fits(rows[k], ws)
  {
    var ws := Widths(headers, rows);
    forall i | 0 <= i < |headers|
      ensures ByteLen(headers[i]) <= ws[i] && ByteLen(Separators(ws)[i]) == ws[i]
    {
      ColumnWidthBound(headers[i], rows, i);
      ByteLenRepeat('-', ws[i]);
    }
    forall k, i | 0 <= k < |rows| && 0 <= i < |rows[k]| && i < |ws|
      ensures ByteLen(rows[k][i]) <= ws[i]
    {
      ColumnWidthBound(headers[i], rows, i);
    }
  }

  /** The row printed on line `n` of a non-empty table: the headers, then the
      separators, then the data rows in order. */
  function TableRow(headers: seq<string>, rows: seq<seq<string>>, n: nat): seq<string>
    requires n < |rows| + 2
  {
    if n == 0 then headers else if n == 1 then Separators(Widths(headers, rows)) else rows[n - 2]
  }

  /** What `PrintTable` prints: a note when there are no rows; otherwise the header
      line, the separator line and one line per row, all laid out with the same
      widths. */
  function TableLines(headers: seq<string>, rows: seq<seq<string>>): seq<string>
  {
    if rows == [] then [NoDataFound]
    else
      var ws := Widths(headers, rows);
      WidthsFit(headers, rows);
      seq(|rows| + 2, n requires 0 <= n < |rows| + 2 => RowLine(TableRow(headers, rows, n), ws))
  }

  /** A table without rows is only the note; otherwise it has a line for the
      header, one for the separators and one per row. Extra cells beyond the headers
      are printed, unpadded. */
  lemma TableShape(headers: seq<string>, rows: seq<seq<string>>)
    ensures rows == [] <==> TableLines(headers, rows) == [NoDataFound]
    ensures rows != [] ==> |TableLines(headers, rows)| == |rows| + 2
  {
    if rows != [] {
      var lines := TableLines(headers, rows);
      assert |lines| >= 3;
    }
  }

  /** The columns of a printed table line up: on every line, cell `c` begins at
      the same byte offset, the start of column `c`; and each column is as wide as
      its widest cell or header. */
  lemma TableColumnsAligned(headers: seq<string>, rows: seq<seq<string>>, n: nat, c: nat)
    requires rows != [] && n < |rows| + 2
    requires c < |TableRow(headers, rows, n)| && c <= |headers|
    ensures var ws := Widths(headers, rows);
      var row := TableRow(headers, rows, n);
      Fits(row, ws) &&
      var pre := RowPrefix(row, ws, c);
      HasPrefix(TableLines(headers, rows)[n], pre + row[c]) && ByteLen(pre) == ColumnStart(ws, c)
  {
    WidthsFit(headers, rows);
    RowColumnAligned(TableRow(headers, rows, n), Widths(headers, rows), c);
  }

  /** The separator loop of `PrintTable`: a run of dashes per column. */
  method SeparatorRow(widths: seq<nat>) returns (sep: seq<string>)
    ensures sep == Separators(widths)
  {
    var cells := new string[|widths|];
    for i := 0 to |widths|
      invariant forall j :: 0 <= j < i ==> cells[j] == Repeat('-', widths[j])
    {
      cells[i] := Repeat('-', widths[i]);
    }
    sep := cells[..];
  }

  /** The row loop of `PrintTable`: one laid-out line per data row, in order. */
  method PrintRows(rows: seq<seq<string>>, widths: seq<nat>) returns (lines: seq<string>)
    requires forall k :: 0 <= k < |rows| ==> Fits(rows[k], widths)
    ensures |lines| == |rows| && forall k :: 0 <= k < |rows| ==> lines[k] == RowLine(rows[k], widths)
  {
    lines := [];
    for k := 0 to |rows|
      invariant |lines| == k && forall n :: 0 <= n < k ==> lines[n] == RowLine(rows[n], widths)
    {
      var line := PrintRow(rows[k], widths);
      lines := lines + [line];
    }
  }

  /** The lines `PrintTable` prints, computed as it computes them. */
  method RenderTable(headers: seq<string>, rows: seq<seq<string>>) returns (lines: seq<string>)
    ensures lines == TableLines(headers, rows)
  {
    if |rows| == 0 {
      return [NoDataFound];
    }
    var widths := ComputeWidths(headers, rows);
    WidthsFit(headers, rows);
    var headerLine := PrintRow(headers, widths);
    var sep := SeparatorRow(widths);
    var sepLine := PrintRow(sep, widths);
    var rowLines := PrintRows(rows, widths);
    lines := [headerLine, sepLine] + rowLines;
    assert forall n :: 2 <= n < |lines| ==> lines[n] == rowLines[n - 2];
  }

  /** `PrintTable`: prints the lines of the table. */
  method PrintTable(term: Terminal, headers: seq<string>, rows: seq<seq<string>>)
    modifies term`trace
    ensures term.trace == old(term.trace) + [Printed(TableLines(headers, rows))]
  {
    var lines := RenderTable(headers, rows);
    term.Emit(Printed(lines));
  }

  // ---------------------------------------------------------------------------
  // PrintKeyValue

  /** The longest byte length among `keys` (0 for none). */
  function MaxLen(keys: seq<string>): nat
  {
    if keys == [] then 0
    else
      var m := MaxLen(keys[..|keys| - 1]);
      var k := keys[|keys| - 1];
      if ByteLen(k) > m then ByteLen(k) else m
  }

  lemma {:induction false} MaxLenBound(keys: seq<string>)
    ensures forall i :: 0 <= i < |keys| ==> ByteLen(keys[i]) <= MaxLen(keys)
    ensures keys != [] ==> exists i :: 0 <= i < |keys| && ByteLen(keys[i]) == MaxLen(keys)
  {
    if keys != [] {
      var init := keys[..|keys| - 1];
      MaxLenBound(init);
      assert forall i :: 0 <= i < |init| ==> init[i] == keys[i];
      var last := keys[|keys| - 1];
      assert MaxLen(keys) == if ByteLen(last) > MaxLen(init) then ByteLen(last) else MaxLen(init);
      if ByteLen(last) != MaxLen(keys) {
        assert init != [];
        var i :| 0 <= i < |init| && ByteLen(init[i]) == MaxLen(init);
        assert keys[i] == init[i];
      }
    }
  }

  /** Keys that all occur among `b` are no wider than the widest of `b`. */
  lemma MaxLenSubset(a: seq<string>, b: seq<string>)
    requires forall k :: k in a ==> k in b
    ensures MaxLen(a) <= MaxLen(b)
  {
    MaxLenBound(a);
    MaxLenBound(b);
    if a != [] {
      var i :| 0 <= i < |a| && ByteLen(a[i]) == MaxLen(a);
      assert a[i] in b;
    }
  }

  /** The widest key does not depend on the order the keys come in: any two orders
      of the same keys give the same width. */
  lemma MaxLenOrderFree(a: seq<string>, b: seq<string>)
    requires forall k :: k in a <==> k in b
    ensures MaxLen(a) == MaxLen(b)
  {
    MaxLenSubset(a, b);
    MaxLenSubset(b, a);
  }

  /** The key padded with spaces to `width` bytes. */
  function PaddedKey(key: string, width: nat): (r: string)
    requires ByteLen(key) <= width
  {
    key + Repeat(' ', width - ByteLen(key))
  }

  /** Every key is padded to the same width, so the ` : ` separators line up. */
  lemma PaddedKeyWidth(key: string, width: nat)
    requires ByteLen(key) <= width
    ensures ByteLen(PaddedKey(key, width)) == width && HasPrefix(PaddedKey(key, width), key)
  {
    ByteLenConcat(key, Repeat(' ', width - ByteLen(key)));
    ByteLenRepeat(' ', width - ByteLen(key));
    assert PaddedKey(key, width)[..|key|] == key;
  }

  /** Whether `order` lists the keys of `data`, each once. */
  ghost predicate IsOrderOf(order: seq<string>, data: map<string, string>)
  {
    && (forall k :: k in order <==> k in data)
    && forall i, j :: 0 <= i < j < |order| ==> order[i] != order[j]
  }

  /** The lines `PrintKeyValue` prints for `data` taken in `order`. */
  function KeyValueLines(order: seq<string>, data: map<string, string>): seq<string>
    requires forall k :: k in order ==> k in data
  {
    MaxLenBound(order);
    seq(|order|, i requires 0 <= i < |order| => PaddedKey(order[i], MaxLen(order)) + " : " + data[order[i]])
  }

  /** `PrintKeyValue`: the title as a header, then a note if there is no data, else
      one `key : value` line per key in map order, which Go leaves unspecified; the
      order used is returned. */
  method PrintKeyValue(term: Terminal, title: string, data: map<string, string>) returns (order: seq<string>)
    modifies term`trace
    ensures IsOrderOf(order, data)
    ensures term.trace == old(term.trace) + [Header(title)] +
      [Printed(if |data| == 0 then [NoDataAvailable] else KeyValueLines(order, data))]
  {
    term.Emit(Header(title));
    var maxKeyLen;
    order, maxKeyLen := CollectKeys(data);
    if |data| == 0 {
      term.Emit(Printed([NoDataAvailable]));
      return;
    }
    var lines := KeyValueRows(order, data, maxKeyLen);
    term.Emit(Printed(lines));
  }

  /** The key loop of `PrintKeyValue`: the keys in the order the map yields them,
      and the widest key's byte length. */
  method CollectKeys(data: map<string, string>) returns (order: seq<string>, maxKeyLen: nat)
    ensures IsOrderOf(order, data) && maxKeyLen == MaxLen(order)
  {
    order := [];
    maxKeyLen := 0;
    var remaining := data.Keys;
    while remaining != {}
      invariant remaining <= data.Keys
      invariant forall k :: k in order <==> k in data && k !in remaining
      invariant forall i, j :: 0 <= i < j < |order| ==> order[i] != order[j]
      invariant maxKeyLen == MaxLen(order)
      decreases |remaining|
    {
      var k :| k in remaining;
      if ByteLen(k) > maxKeyLen {
        maxKeyLen := ByteLen(k);
      }
      assert (order + [k])[..|order|] == order;
      order := order + [k];
      remaining := remaining - {k};
    }
  }

  /** The print loop of `PrintKeyValue`: one padded `key : value` line per key. */
  method KeyValueRows(order: seq<string>, data: map<string, string>, maxKeyLen: nat) returns (lines: seq<string>)
    requires (forall k :: k in order ==> k in data) && maxKeyLen == MaxLen(order)
    ensures lines == KeyValueLines(order, data)
  {
    MaxLenBound(order);
    lines := [];
    for i := 0 to |order|
      invariant |lines| == i
      invariant forall n :: 0 <= n < i ==> lines[n] == KeyValueLines(order, data)[n]
    {
      var k := order[i];
      var pad := Repeat(' ', maxKeyLen - ByteLen(k));
      lines := lines + [k + pad + " : " + data[k]];
    }
  }

}
