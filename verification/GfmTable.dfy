/**
Markdown output of document conversion: pipe tables (GFM section 4.10) with their cell escaping
(internal/strutil/gfm.go, internal/fileconvert/gfm.go), read back by an independent reader.
*/
module GfmTable {
  import opened Blanks
  import opened TextLines

  /** strings.ReplaceAll for a one-character pattern. */
  function ReplaceAll(s: string, c: char, rep: string): string {
    if s == [] then [] else (if s[0] == c then rep else [s[0]]) + ReplaceAll(s[1..], c, rep)
  }

  /** What a cell means once it has to fit on one line. */
  function Normalised(s: string): string {
    if Blank(s) then "" else ReplaceAll(ReplaceAll(s, '\r', ""), '\n', "<br>")
  }

  function GfmCellEscape(s: string): string {
    if Blank(s) then ""
    else ReplaceAll(ReplaceAll(ReplaceAll(s, '\r', ""), '\n', "<br>"), '|', "\\|")
  }

  // ---------------------------------------------------------------- what is written

  function CellText(c: string): string {
    " " + GfmCellEscape(c) + " |"
  }

  /** One row, without its newline. */
  function RowText(cells: seq<string>): string {
    if cells == [] then ['|'] else RowText(cells[..|cells| - 1]) + CellText(cells[|cells| - 1])
  }

  function DelimiterText(cols: nat): string {
    if cols == 0 then "|" else DelimiterText(cols - 1) + " --- |"
  }

  /** A body row brought to the header's width. */
  function Fitted(r: seq<string>, cols: nat): (f: seq<string>)
    ensures |f| == cols
    ensures forall i :: 0 <= i < cols ==> f[i] == if i < |r| then r[i] else ""
  {
    if |r| < cols then r + seq(cols - |r|, _ => "") else r[..cols]
  }

  function Delimiters(cols: nat): (d: seq<string>)
    ensures |d| == cols
  {
    seq(cols, _ => "---")
  }

  /** The cells of the table of `rows`: the header, the delimiters, the fitted rest. */
  function TableCells(rows: seq<seq<string>>): seq<seq<string>>
    requires rows != []
  {
    var cols := |rows[0]|;
    [rows[0], Delimiters(cols)]
    + seq(|rows| - 1, i requires 0 <= i < |rows| - 1 => Fitted(rows[i + 1], cols))
  }

  function RowTexts(cells: seq<seq<string>>): seq<string> {
    seq(|cells|, i requires 0 <= i < |cells| => RowText(cells[i]))
  }

  /** The lines of the table of `rows`. */
  function TableLines(rows: seq<seq<string>>): seq<string>
    requires rows != []
  {
    RowTexts(TableCells(rows))
  }

  lemma AppendCell(b: string, row: string, c: string)
    ensures (((b + row) + " ") + GfmCellEscape(c)) + " |" == b + (row + CellText(c))
  {
  }

  method WriteGfmRow(b: string, r: seq<string>) returns (b': string)
    ensures b' == b + (RowText(r) + ['\n'])
  {
    b' := b + "|";
    for i := 0 to |r|
      invariant b' == b + RowText(r[..i])
    {
      AppendCell(b, RowText(r[..i]), r[i]);
      b' := b' + " ";
      b' := b' + GfmCellEscape(r[i]);
      b' := b' + " |";
      assert r[..i + 1][..i] == r[..i];
    }
    assert r[..|r|] == r;
    Associates(b, RowText(r), ['\n']);
    b' := b' + ['\n'];
  }

  method WriteDelimiterRow(b: string, cols: nat) returns (b': string)
    ensures b' == b + (DelimiterText(cols) + ['\n'])
  {
    b' := b + "|";
    for k := 0 to cols
      invariant b' == b + DelimiterText(k)
    {
      Associates(b, DelimiterText(k), " --- |");
      b' := b' + " --- |";
    }
    Associates(b, DelimiterText(cols), ['\n']);
    b' := b' + ['\n'];
  }

  lemma JoinedNext(lines: seq<string>, i: nat)
    requires i < |lines|
    ensures Joined('\n', lines[..i + 1]) == Joined('\n', lines[..i]) + (lines[i] + ['\n'])
  {
    assert lines[..i + 1][..i] == lines[..i];
  }

  lemma {:induction false} Untouched(s: string, c: char, rep: string)
    requires c !in s
    ensures ReplaceAll(s, c, rep) == s
  {
    if s != [] {
      Untouched(s[1..], c, rep);
      assert s == [s[0]] + s[1..];
    }
  }

  lemma PlainStaysPlain(s: string, i: nat)
    requires i < |s| && !IsSpace(s[i])
    requires '\r' !in s && '\n' !in s && '|' !in s
    ensures GfmCellEscape(s) == s && Normalised(s) == s
  {
    Untouched(s, '\r', "");
    Untouched(s, '\n', "<br>");
    Untouched(s, '|', "\\|");
  }

  lemma DashesStayDashes()
    ensures CellText("---") == " --- |" && Normalised("---") == "---"
  {
    PlainStaysPlain("---", 0);
  }

  lemma {:induction false} DelimiterRow(cols: nat)
    ensures DelimiterText(cols) == RowText(Delimiters(cols))
  {
    if cols > 0 {
      DelimiterRow(cols - 1);
      assert Delimiters(cols)[..cols - 1] == Delimiters(cols - 1);
      DashesStayDashes();
    }
  }

  lemma TableLineAt(rows: seq<seq<string>>, i: nat)
    requires 1 <= i < |rows|
    ensures TableLines(rows)[i + 1] == RowText(Fitted(rows[i], |rows[0]|))
  {
    assert TableCells(rows)[i + 1] == Fitted(rows[i], |rows[0]|);
  }

  lemma FirstLines(rows: seq<seq<string>>)
    requires rows != []
    ensures |TableLines(rows)| == |rows| + 1
    ensures Joined('\n', TableLines(rows)[..1]) == "" + (RowText(rows[0]) + ['\n'])
    ensures Joined('\n', TableLines(rows)[..2]) ==
            Joined('\n', TableLines(rows)[..1]) + (DelimiterText(|rows[0]|) + ['\n'])
  {
    var lines := TableLines(rows);
    DelimiterRow(|rows[0]|);
    JoinedNext(lines, 0);
    JoinedNext(lines, 1);
    assert TableCells(rows)[0] == rows[0] && TableCells(rows)[1] == Delimiters(|rows[0]|);
    assert lines[0] == RowText(rows[0]) && lines[1] == RowText(Delimiters(|rows[0]|));
  }

  method RenderGfmTable(rows: seq<seq<string>>) returns (b: string)
    requires rows != []
    ensures b == Joined('\n', TableLines(rows))
  {
    var cols := |rows[0]|;
    ghost var lines := TableLines(rows);
    FirstLines(rows);
    hide *;
    b := WriteGfmRow("", rows[0]);
    b := WriteDelimiterRow(b, cols);
    for i := 1 to |rows|
      invariant b == Joined('\n', lines[..i + 1])
    {
      var r := rows[i];
      if |r| < cols {
        r := r + seq(cols - |r|, _ => "");
      } else if |r| > cols {
        r := r[..cols];
      }
      assert r == Fitted(rows[i], cols);
      b := WriteGfmRow(b, r);
      TableLineAt(rows, i);
      JoinedNext(lines, i + 1);
    }
    assert lines[..|rows| + 1] == lines;
  }

  // ---------------------------------------------------------------- what a reader sees

  /** Split at pipes that no backslash precedes; `prev` is the character before `s`. */
  function SplitPipes(s: string, prev: char): (parts: seq<string>)
    ensures |parts| > 0
  {
    if s == [] then [""]
    else
      var rest := SplitPipes(s[1..], s[0]);
      if s[0] == '|' && prev != '\\' then [""] + rest else [[s[0]] + rest[0]] + rest[1..]
  }

  /** Undo the escape: the backslash in front of a pipe goes. */
  function Unescape(s: string): string {
    if |s| >= 2 && s[0] == '\\' && s[1] == '|' then ['|'] + Unescape(s[2..])
    else if s == [] then []
    else [s[0]] + Unescape(s[1..])
  }

  function CellOf(part: string): string {
    if |part| < 2 then "" else Unescape(part[1..|part| - 1])
  }

  /** The cells of a row: what stands between the outer pipes, unpadded and unescaped. */
  function ParseRow(line: string): seq<string> {
    var parts := SplitPipes(line, ' ');
    if |parts| < 2 then [] else seq(|parts| - 2, i requires 0 <= i < |parts| - 2 => CellOf(parts[i + 1]))
  }

  function ParseTable(text: string): seq<seq<string>> {
    var lines := Lines('\n', text);
    seq(|lines|, i requires 0 <= i < |lines| => ParseRow(lines[i]))
  }

  // ---------------------------------------------------------------- reading back

  lemma {:induction false} UnescapeInverts(s: string)
    ensures Unescape(ReplaceAll(s, '|', "\\|")) == s
    ensures ReplaceAll(s, '|', "\\|") == [] || ReplaceAll(s, '|', "\\|")[0] != '|'
  {
    if s != [] {
      UnescapeInverts(s[1..]);
      var rest := ReplaceAll(s[1..], '|', "\\|");
      if s[0] == '|' {
        var e := "\\|" + rest;
        assert e[2..] == rest;
        assert Unescape(e) == ['|'] + Unescape(rest);
      } else {
        var e := [s[0]] + rest;
        assert e[1..] == rest;
        assert Unescape(e) == [s[0]] + Unescape(rest);
      }
    }
  }

  /** No pipe in `s` would be split at, `prev` being the character in front. */
  predicate NoBarePipe(s: string, prev: char) {
    s == [] || ((s[0] == '|' ==> prev == '\\') && NoBarePipe(s[1..], s[0]))
  }

  lemma {:induction false} EscapedHasNoBarePipe(s: string, prev: char)
    ensures NoBarePipe(ReplaceAll(s, '|', "\\|") + [' '], prev)
  {
    var e := ReplaceAll(s, '|', "\\|");
    if s == [] {
      assert e + [' '] == [' '];
      assert [' '][1..] == [];
    } else {
      var rest := ReplaceAll(s[1..], '|', "\\|");
      if s[0] == '|' {
        EscapedHasNoBarePipe(s[1..], '|');
        assert e + [' '] == ['\\', '|'] + (rest + [' ']);
        assert (e + [' '])[1..] == ['|'] + (rest + [' ']);
        assert (e + [' '])[1..][1..] == rest + [' '];
      } else {
        EscapedHasNoBarePipe(s[1..], s[0]);
        assert (e + [' '])[1..] == rest + [' '];
      }
    }
  }

  /** `parts` with `s` in front of the first. */
  function Ahead(s: string, parts: seq<string>): seq<string>
    requires |parts| > 0
  {
    [s + parts[0]] + parts[1..]
  }

  lemma {:induction false} SplitSkips(s: string, prev: char, t: string)
    requires NoBarePipe(s, prev)
    ensures SplitPipes(s + t, prev) == Ahead(s, SplitPipes(t, if s == [] then prev else s[|s| - 1]))
  {
    if s == [] {
      assert s + t == t;
      var parts := SplitPipes(t, prev);
      assert [] + parts[0] == parts[0];
      assert parts == [parts[0]] + parts[1..];
    } else {
      SplitSkips(s[1..], s[0], t);
      assert (s + t)[1..] == s[1..] + t;
      var parts := SplitPipes(t, s[|s| - 1]);
      assert [s[0]] + (s[1..] + parts[0]) == s + parts[0];
    }
  }

  /** The cells of a row, padded and escaped, as the parts between its pipes. */
  function Parts(cells: seq<string>): seq<string> {
    if cells == [] then []
    else [" " + GfmCellEscape(cells[0]) + " "] + Parts(cells[1..])
  }

  function FromFront(cells: seq<string>): string {
    if cells == [] then "" else CellText(cells[0]) + FromFront(cells[1..])
  }

  lemma {:induction false} FrontSnoc(cells: seq<string>, last: string)
    ensures FromFront(cells + [last]) == FromFront(cells) + CellText(last)
  {
    if cells == [] {
      assert ([] + [last])[1..] == [];
      assert FromFront([last]) == CellText(last) + "";
    } else {
      FrontSnoc(cells[1..], last);
      assert (cells + [last])[1..] == cells[1..] + [last];
      Associates(CellText(cells[0]), FromFront(cells[1..]), CellText(last));
    }
  }

  lemma {:induction false} RowFromFront(cells: seq<string>)
    ensures RowText(cells) == ['|'] + FromFront(cells)
  {
    if |cells| > 0 {
      var n := |cells| - 1;
      RowFromFront(cells[..n]);
      FrontSnoc(cells[..n], cells[n]);
      assert cells == cells[..n] + [cells[n]];
      Associates(['|'], FromFront(cells[..n]), CellText(cells[n]));
    }
  }

  lemma CellHasNoBarePipe(c: string)
    ensures NoBarePipe(" " + GfmCellEscape(c) + " ", '|')
  {
    var e := GfmCellEscape(c);
    var s := " " + e + " ";
    if Blank(c) {
      assert e == "" && s[1..] == " " && s[1..][1..] == "";
    } else {
      EscapedHasNoBarePipe(ReplaceAll(ReplaceAll(c, '\r', ""), '\n', "<br>"), ' ');
      assert s[1..] == e + [' '];
    }
  }

  lemma PipeSplits(rest: string)
    ensures SplitPipes(['|'] + rest, ' ') == [""] + SplitPipes(rest, '|')
  {
    assert (['|'] + rest)[1..] == rest;
  }

  lemma CellSplitsOff(c: string, rest: string)
    ensures SplitPipes(CellText(c) + rest, '|') == [" " + GfmCellEscape(c) + " "] + SplitPipes(rest, '|')
  {
    var cell := " " + GfmCellEscape(c) + " ";
    CellHasNoBarePipe(c);
    SplitSkips(cell, '|', ['|'] + rest);
    assert cell + (['|'] + rest) == CellText(c) + rest;
    PipeSplits(rest);
    assert cell + "" == cell;
  }

  lemma {:induction false} SplitRow(cells: seq<string>)
    ensures SplitPipes(FromFront(cells), '|') == Parts(cells) + [""]
  {
    if cells != [] {
      SplitRow(cells[1..]);
      CellSplitsOff(cells[0], FromFront(cells[1..]));
    }
  }

  lemma CellComesBack(c: string)
    ensures CellOf(" " + GfmCellEscape(c) + " ") == Normalised(c)
  {
    var part := " " + GfmCellEscape(c) + " ";
    assert part[1..|part| - 1] == GfmCellEscape(c);
    if !Blank(c) {
      UnescapeInverts(ReplaceAll(ReplaceAll(c, '\r', ""), '\n', "<br>"));
    }
  }

  /** A character of a cell as it is shown: a line feed as a break, a carriage return not at all. */
  function ShownChar(c: char): string {
    if c == '\r' then "" else if c == '\n' then "<br>" else [c]
  }

  function ShownText(s: string): string {
    if s == "" then "" else ShownChar(s[0]) + ShownText(s[1..])
  }

  lemma {:induction false} TwoPassesAreOne(s: string)
    ensures ReplaceAll(ReplaceAll(s, '\r', ""), '\n', "<br>") == ShownText(s)
  {
    if s != "" {
      TwoPassesAreOne(s[1..]);
      var rest := ReplaceAll(s[1..], '\r', "");
      if s[0] == '\r' {
        assert "" + rest == rest;
      } else {
        assert ([s[0]] + rest)[1..] == rest;
      }
    }
  }

  /** What a reader gets back for a cell: nothing for a blank one, otherwise its text character by character. */
  lemma NormalisedIsShown(c: string)
    ensures Normalised(c) == if forall i :: 0 <= i < |c| ==> IsSpace(c[i]) then "" else ShownText(c)
  {
    TwoPassesAreOne(c);
  }

  function NormalisedRow(cells: seq<string>): seq<string> {
    seq(|cells|, i requires 0 <= i < |cells| => Normalised(cells[i]))
  }

  lemma {:induction false} PartsAt(cells: seq<string>, i: nat)
    requires i < |cells|
    ensures |Parts(cells)| == |cells| && Parts(cells)[i] == " " + GfmCellEscape(cells[i]) + " "
  {
    if i > 0 {
      PartsAt(cells[1..], i - 1);
    } else if |cells| > 1 {
      PartsAt(cells[1..], 0);
    }
  }

  lemma RowSplits(cells: seq<string>)
    ensures SplitPipes(RowText(cells), ' ') == [""] + (Parts(cells) + [""])
  {
    RowFromFront(cells);
    SplitRow(cells);
    PipeSplits(FromFront(cells));
  }

  /** Main result for one row: split on its unescaped pipes it has exactly its cells, and each reads
      back as the newline-normalised original, whatever characters it holds. */
  lemma RowReadsBack(cells: seq<string>)
    ensures ParseRow(RowText(cells)) == NormalisedRow(cells)
  {
    var line := RowText(cells);
    RowSplits(cells);
    if cells != [] {
      PartsAt(cells, 0);
    }
    assert |ParseRow(line)| == |cells|;
    forall i | 0 <= i < |cells|
      ensures ParseRow(line)[i] == Normalised(cells[i])
    {
      PartsAt(cells, i);
      CellComesBack(cells[i]);
    }
  }

  // ---------------------------------------------------------------- the whole table

  lemma {:induction false} ReplaceKeepsOut(s: string, c: char, rep: string, x: char)
    requires x !in rep && (x == c || x !in s)
    ensures x !in ReplaceAll(s, c, rep)
  {
    if s != [] {
      ReplaceKeepsOut(s[1..], c, rep, x);
    }
  }

  lemma EscapeIsOneLine(c: string)
    ensures '\n' !in GfmCellEscape(c)
  {
    if !Blank(c) {
      var s := ReplaceAll(c, '\r', "");
      ReplaceKeepsOut(s, '\n', "<br>", '\n');
      ReplaceKeepsOut(ReplaceAll(s, '\n', "<br>"), '|', "\\|", '\n');
    }
  }

  lemma {:induction false} RowIsOneLine(cells: seq<string>)
    ensures '\n' !in RowText(cells)
  {
    if cells != [] {
      RowIsOneLine(cells[..|cells| - 1]);
      EscapeIsOneLine(cells[|cells| - 1]);
      assert '\n' !in CellText(cells[|cells| - 1]);
    }
  }

  function NormalisedRows(cells: seq<seq<string>>): seq<seq<string>> {
    seq(|cells|, i requires 0 <= i < |cells| => NormalisedRow(cells[i]))
  }

  /** What a table is worth: its rows at the header's width, cells normalised. */
  function Content(rows: seq<seq<string>>): seq<seq<string>>
    requires rows != []
  {
    NormalisedRows(TableCells(rows))
  }

  lemma RowsReadBack(cells: seq<seq<string>>)
    ensures ParseTable(Joined('\n', RowTexts(cells))) == NormalisedRows(cells)
    ensures Partial('\n', Joined('\n', RowTexts(cells))) == ""
  {
    forall i | 0 <= i < |cells|
      ensures '\n' !in RowTexts(cells)[i] && ParseRow(RowTexts(cells)[i]) == NormalisedRows(cells)[i]
    {
      RowIsOneLine(cells[i]);
      RowReadsBack(cells[i]);
    }
    LinesOfJoined('\n', RowTexts(cells));
  }

  lemma DelimitersAreNormal(cols: nat)
    ensures NormalisedRow(Delimiters(cols)) == Delimiters(cols)
  {
    DashesStayDashes();
  }

  predicate Rectangular(rows: seq<seq<string>>, cols: nat) {
    forall i :: 0 <= i < |rows| ==> |rows[i]| == cols
  }

  lemma ContentIsRectangular(rows: seq<seq<string>>)
    requires rows != []
    ensures Rectangular(Content(rows), |rows[0]|)
  {
  }

  /** Cell by cell: the header, then the delimiters, then each further row cut or filled to the header's width. */
  lemma ContentAt(rows: seq<seq<string>>, i: nat, j: nat)
    requires i < |rows| && j < |rows[0]|
    ensures Rectangular(Content(rows), |rows[0]|) && |Content(rows)| == |rows| + 1
    ensures Content(rows)[0][j] == Normalised(rows[0][j]) && Content(rows)[1][j] == "---"
    ensures i > 0 ==> Content(rows)[i + 1][j] == if j < |rows[i]| then Normalised(rows[i][j]) else ""
  {
    ContentIsRectangular(rows);
    DelimitersAreNormal(|rows[0]|);
    var cells := TableCells(rows);
    assert Content(rows)[0] == NormalisedRow(rows[0]) && Content(rows)[1] == NormalisedRow(Delimiters(|rows[0]|));
    if i > 0 {
      assert cells[i + 1] == Fitted(rows[i], |rows[0]|);
      assert Content(rows)[i + 1] == NormalisedRow(cells[i + 1]);
    }
  }

  /** Main result: whatever the cells hold, the text is one line a row, every line splits into exactly
      the header's number of cells, and the cells read back. */
  lemma TableReadsBack(rows: seq<seq<string>>)
    requires rows != []
    ensures ParseTable(Joined('\n', TableLines(rows))) == Content(rows)
    ensures Partial('\n', Joined('\n', TableLines(rows))) == ""
    ensures |Content(rows)| == |rows| + 1 && Content(rows)[1] == Delimiters(|rows[0]|)
    ensures Rectangular(Content(rows), |rows[0]|)
  {
    RowsReadBack(TableCells(rows));
    ContentIsRectangular(rows);
    DelimitersAreNormal(|rows[0]|);
  }
}
