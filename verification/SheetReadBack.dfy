/**
Where the cells of a worksheet come to stand (internal/fileconvert/convert_xlsx_sheet.go:161-265): the columns of
all cells read off the tokens alone, and sheets written out cell by cell that read back as they were.
*/
module SheetReadBack {
  import opened Blanks
  import opened Options
  import opened Runs
  import opened SheetParser
  import opened SheetCells

  // ---------------------------------------------------------------- columns read off the tokens

  /** The column a cell without a reference would be meant for: one past the cell before it in its row. */
  function NextCol(toks: seq<Token>): nat {
    if toks == [] then 0
    else
      var before, tok := toks[..|toks| - 1], toks[|toks| - 1];
      if tok == Open(RowEl) then 0
      else if ClosesCell(tok) && RowOpen(before) then ColOf(before) + 1
      else NextCol(before)
  }

  /** The column of the cell opened last: that of its reference, if it carries one. */
  function ColOf(toks: seq<Token>): nat {
    if toks == [] then 0
    else
      var before, tok := toks[..|toks| - 1], toks[|toks| - 1];
      if tok.Open? && tok.e.CellEl? then (if tok.e.ref == "" then NextCol(before) else Column(tok.e.ref))
      else ColOf(before)
  }

  /** The columns of the cells closed in the row opened last. */
  function RowCols(toks: seq<Token>): seq<nat> {
    if toks == [] then []
    else
      var before, tok := toks[..|toks| - 1], toks[|toks| - 1];
      if tok == Open(RowEl) then []
      else if ClosesCell(tok) && RowOpen(before) then RowCols(before) + [ColOf(before)]
      else RowCols(before)
  }

  /** Those of every row closed. */
  function ShutCols(toks: seq<Token>): seq<seq<nat>> {
    if toks == [] then []
    else
      var before, tok := toks[..|toks| - 1], toks[|toks| - 1];
      if tok == Close(RowEl) then ShutCols(before) + [RowCols(before)] else ShutCols(before)
  }

  predicate AtColumns(cs: seq<Placed>, cols: seq<nat>) {
    |cs| == |cols| && forall i :: 0 <= i < |cs| ==> cs[i].col == cols[i]
  }

  predicate AllAtColumns(rows: seq<seq<Placed>>, cols: seq<seq<nat>>) {
    |rows| == |cols| && forall k :: 0 <= k < |rows| ==> AtColumns(rows[k], cols[k])
  }

  predicate Placing(p: Parser, toks: seq<Token>) {
    && p.row.next == NextCol(toks) && p.cell.col == ColOf(toks)
    && AtColumns(p.account.placed, RowCols(toks)) && AllAtColumns(p.account.shut, ShutCols(toks))
  }

  lemma CloseKeepsColumns(wb: Workbook, p: Parser, e: Element)
    requires !p.sheet.tooSparse && !Closed(wb, p, e).sheet.tooSparse
    ensures var q := Closed(wb, p, e);
            && q.cell.col == p.cell.col
            && (if e.CellEl? && p.at.row then
                  && q.row.next == p.cell.col + 1 && q.account.shut == p.account.shut
                  && |q.account.placed| == |p.account.placed| + 1
                  && q.account.placed[..|p.account.placed|] == p.account.placed
                  && q.account.placed[|p.account.placed|].col == p.cell.col
                else q.row.next == p.row.next && q.account.placed == p.account.placed)
            && (if e.RowEl? then q.account.shut == p.account.shut + [p.account.placed]
                else q.account.shut == p.account.shut)
  {
    hide CellText, Tallied, RowIsEmpty;
  }

  /** One token more. */
  lemma ColumnsSnoc(toks: seq<Token>, tok: Token)
    ensures NextCol(toks + [tok]) == if tok == Open(RowEl) then 0
                                     else if ClosesCell(tok) && RowOpen(toks) then ColOf(toks) + 1
                                     else NextCol(toks)
    ensures ColOf(toks + [tok]) ==
            if tok.Open? && tok.e.CellEl? then (if tok.e.ref == "" then NextCol(toks) else Column(tok.e.ref))
            else ColOf(toks)
    ensures RowCols(toks + [tok]) == if tok == Open(RowEl) then []
                                     else if ClosesCell(tok) && RowOpen(toks) then RowCols(toks) + [ColOf(toks)]
                                     else RowCols(toks)
    ensures ShutCols(toks + [tok]) == if tok == Close(RowEl) then ShutCols(toks) + [RowCols(toks)] else ShutCols(toks)
  {
    hide Column;
    assert (toks + [tok])[..|toks|] == toks;
  }

  lemma OpenKeepsColumns(wb: Workbook, p: Parser, toks: seq<Token>, e: Element)
    requires Placing(p, toks)
    ensures Placing(Opened(p, e), toks + [Open(e)])
  {
    ColumnsSnoc(toks, Open(e));
    hide Column, NextCol, ColOf, RowCols, ShutCols;
  }

  lemma StepKeepsColumns(wb: Workbook, p: Parser, toks: seq<Token>, tok: Token)
    requires Placing(p, toks) && p.at.row == RowOpen(toks)
    requires !p.sheet.tooSparse && !Next(wb, p, tok).sheet.tooSparse
    ensures Placing(Next(wb, p, tok), toks + [tok])
  {
    hide Closed, Opened, Column, NextCol, ColOf, RowCols, ShutCols;
    match tok
    case Open(e) => OpenKeepsColumns(wb, p, toks, e);
    case Close(e) =>
      ColumnsSnoc(toks, tok);
      CloseKeepsColumns(wb, p, e);
    case Chars(_) => ColumnsSnoc(toks, tok);
  }

  /** Main result, for any stream whose sheet is not given up: every cell placed in a row, in the rows closed and in
      the one being read, is meant for the column the tokens give it. */
  lemma {:induction false} CellsAreWhereTheTokensSay(wb: Workbook, toks: seq<Token>)
    requires !After(wb, toks).sheet.tooSparse
    ensures Placing(After(wb, toks), toks)
  {
    if toks != [] {
      var before := toks[..|toks| - 1];
      Front(wb, toks);
      CellsAreWhereTheTokensSay(wb, before);
      TokensTell(wb, before);
      StepKeepsColumns(wb, After(wb, before), before, toks[|toks| - 1]);
    }
  }

  predicate OpensNoCell(toks: seq<Token>) {
    forall i :: 0 <= i < |toks| ==> !(toks[i].Open? && toks[i].e.CellEl?)
  }

  /** Where no other cell opens inside it, a cell's column is that of its own opening token's reference, or the next
      one if it has none. */
  lemma {:induction false} OwnReference(before: seq<Token>, e: Element, inside: seq<Token>)
    requires e.CellEl? && OpensNoCell(inside)
    ensures ColOf(before + [Open(e)] + inside) == if e.ref == "" then NextCol(before) else Column(e.ref)
  {
    if inside == [] {
      assert before + [Open(e)] + inside == before + [Open(e)];
      assert (before + [Open(e)])[..|before|] == before;
    } else {
      var n := |inside| - 1;
      OwnReference(before, e, inside[..n]);
      assert (before + [Open(e)] + inside)[..|before| + 1 + n] == before + [Open(e)] + inside[..n];
    }
  }

  // ---------------------------------------------------------------- column names

  function Letter(n: nat): char
    requires n < 26
  {
    ('A' as int + n) as char
  }

  /** A, B, ..., Z, AA, AB, ... */
  function Name(n: nat): (s: string)
    ensures s != [] && forall i :: 0 <= i < |s| ==> IsLetter(s[i])
  {
    if n < 26 then [Letter(n)] else Name(n / 26 - 1) + [Letter(n % 26)]
  }

  lemma {:induction false} NameIsBase26(n: nat)
    ensures Base26(Name(n)) == n + 1
  {
    if n < 26 {
      assert Name(n)[..0] == [];
      assert Base26(Name(n)[..0]) == 0;
    } else {
      NameIsBase26(n / 26 - 1);
      assert Name(n)[..|Name(n)| - 1] == Name(n / 26 - 1);
    }
  }

  /** Main result: the column of a reference inverts writing the column's number in letters, whatever row number
      follows, up to the format's last column. */
  lemma ColumnOfName(n: nat, tail: string)
    requires tail == [] || !IsLetter(tail[0])
    ensures Column(Name(n) + tail) == if n <= 16383 then n else 16383
  {
    LettersAre(Name(n) + tail, |Name(n)|);
    assert (Name(n) + tail)[..|Name(n)|] == Name(n);
    NameIsBase26(n);
  }

  function Lower(s: string): (t: string)
    requires forall i :: 0 <= i < |s| ==> 'A' <= s[i] <= 'Z'
    ensures |t| == |s| && forall i :: 0 <= i < |s| ==> 'a' <= t[i] <= 'z' && t[i] as int == s[i] as int + 32
  {
    seq(|s|, i requires 0 <= i < |s| => (s[i] as int + 32) as char)
  }

  lemma {:induction false} NameIsCapital(n: nat)
    ensures forall i :: 0 <= i < |Name(n)| ==> 'A' <= Name(n)[i] <= 'Z'
  {
    if n >= 26 {
      NameIsCapital(n / 26 - 1);
    }
  }

  lemma {:induction false} LowerIsWorthTheSame(s: string)
    requires forall i :: 0 <= i < |s| ==> 'A' <= s[i] <= 'Z'
    ensures Base26(Lower(s)) == Base26(s)
  {
    if s != [] {
      LowerIsWorthTheSame(s[..|s| - 1]);
      assert Lower(s)[..|s| - 1] == Lower(s[..|s| - 1]);
    }
  }

  /** Small letters name the same columns. */
  lemma ColumnOfLowerName(n: nat, tail: string)
    requires tail == [] || !IsLetter(tail[0])
    ensures (forall i :: 0 <= i < |Name(n)| ==> 'A' <= Name(n)[i] <= 'Z') &&
            Column(Lower(Name(n)) + tail) == if n <= 16383 then n else 16383
  {
    NameIsCapital(n);
    var s := Lower(Name(n));
    LettersAre(s + tail, |s|);
    assert (s + tail)[..|s|] == s;
    LowerIsWorthTheSame(Name(n));
    NameIsBase26(n);
  }

  // ---------------------------------------------------------------- shared string numbers

  function Numeral(n: nat): (s: string)
    ensures s != [] && forall i :: 0 <= i < |s| ==> IsDigit(s[i])
  {
    (if n < 10 then [] else Numeral(n / 10)) + [('0' as int + n % 10) as char]
  }

  function Pow10(k: nat): nat {
    if k == 0 then 1 else 10 * Pow10(k - 1)
  }

  lemma {:induction false} NumeralIsDecimal(n: nat, k: nat)
    requires k > 0 && n < Pow10(k)
    ensures Decimal(Numeral(n)) == n && |Numeral(n)| <= k
  {
    var front := if n < 10 then [] else Numeral(n / 10);
    assert Numeral(n)[..|Numeral(n)| - 1] == front;
    if n >= 10 {
      NumeralIsDecimal(n / 10, k - 1);
    } else {
      assert Decimal(front) == 0;
    }
  }

  /** Main result: the number of a shared string, written out, is read back, below a thousand million. */
  lemma SharedStringReadsBack(n: nat)
    requires n < 1000000000
    ensures SstIndex(Numeral(n)) == Some(n)
  {
    assert Pow10(9) == 1000000000;
    NumeralIsDecimal(n, 9);
  }

  // ---------------------------------------------------------------- cells written out

  datatype Formula = Formula(shared: bool, text: string)

  /** A cell as it is written: column, type, style, and its formula, value and inline text if it has them. */
  datatype Wrote = Wrote(col: nat, typ: string, style: nat,
                         formula: Option<Formula>, value: Option<string>, inline: Option<string>)

  function FormulaToks(f: Option<Formula>): seq<Token> {
    if f.None? then [] else [Open(FEl(f.value.shared))] + [Chars(f.value.text)] + [Close(FEl(f.value.shared))]
  }

  function ValueToks(v: Option<string>): seq<Token> {
    if v.None? then [] else [Open(VEl)] + [Chars(v.value)] + [Close(VEl)]
  }

  function InlineToks(t: Option<string>): seq<Token> {
    if t.None? then [] else [Open(IsEl)] + [Open(TEl)] + [Chars(t.value)] + [Close(TEl)] + [Close(IsEl)]
  }

  /** The cell the parser should have in hand when it closes: a shared formula without text is none. */
  function Meant(w: Wrote): Cell {
    var shared := w.formula.Some? && w.formula.value.shared;
    Cell(w.col, w.typ, w.style,
         Flags(w.value.Some?, w.formula.Some? && !(shared && w.formula.value.text == ""), shared),
         Texts(if w.value.Some? then w.value.value else "", if w.formula.Some? then w.formula.value.text else "",
               if w.inline.Some? then w.inline.value else ""))
  }

  const IN_ROW := Inside(true, false, false, false, false, false)
  const IN_CELL := Inside(true, true, false, false, false, false)

  /** Inside a cell of a row, in no element of it. */
  predicate Inward(p: Parser) {
    p.at == IN_CELL && !p.sheet.tooSparse
  }

  lemma ReadsFormula(wb: Workbook, toks: seq<Token>, f: Option<Formula>)
    requires Inward(After(wb, toks)) && After(wb, toks).cell.flags == Flags(false, false, false)
    requires After(wb, toks).cell.texts == Texts("", "", "")
    ensures var p, q := After(wb, toks), After(wb, toks + FormulaToks(f));
            && Inward(q) && q.row == p.row && q.account == p.account
            && q.sheet == p.sheet.(tally := q.sheet.tally)
            && q.sheet.tally.sharedFormula ==
               p.sheet.tally.sharedFormula + (if f.Some? && f.value.shared && f.value.text == "" then 1 else 0)
            && q.cell == (if f.None? then p.cell
                          else p.cell.(flags := Flags(false, !(f.value.shared && f.value.text == ""), f.value.shared),
                                       texts := Texts("", f.value.text, "")))
  {
    if f.Some? {
      var o, c, e := Open(FEl(f.value.shared)), Chars(f.value.text), Close(FEl(f.value.shared));
      assert "" + f.value.text == f.value.text;
      OneMore(wb, toks, o);
      OneMore(wb, toks + [o], c);
      OneMore(wb, toks + [o] + [c], e);
      assert toks + [o] + [c] + [e] == toks + FormulaToks(f);
    } else {
      assert toks + FormulaToks(f) == toks;
    }
  }

  lemma ReadsValue(wb: Workbook, toks: seq<Token>, v: Option<string>)
    requires Inward(After(wb, toks)) && After(wb, toks).cell.texts.v == "" && !After(wb, toks).cell.flags.hasV
    ensures var p, q := After(wb, toks), After(wb, toks + ValueToks(v));
            && Inward(q) && q.row == p.row && q.account == p.account && q.sheet == p.sheet
            && q.cell == (if v.None? then p.cell
                          else p.cell.(flags := p.cell.flags.(hasV := true), texts := p.cell.texts.(v := v.value)))
  {
    if v.Some? {
      assert "" + v.value == v.value;
      OneMore(wb, toks, Open(VEl));
      OneMore(wb, toks + [Open(VEl)], Chars(v.value));
      OneMore(wb, toks + [Open(VEl)] + [Chars(v.value)], Close(VEl));
      assert toks + [Open(VEl)] + [Chars(v.value)] + [Close(VEl)] == toks + ValueToks(v);
    } else {
      assert toks + ValueToks(v) == toks;
    }
  }

  lemma ReadsText(wb: Workbook, toks: seq<Token>, t: string)
    requires var p := After(wb, toks);
             p.at == IN_CELL.(inline := true) && !p.sheet.tooSparse && p.cell.texts.inline == ""
    ensures var p, q := After(wb, toks), After(wb, toks + [Open(TEl)] + [Chars(t)] + [Close(TEl)]);
            q == p.(cell := p.cell.(texts := p.cell.texts.(inline := t)))
  {
    assert "" + t == t;
    OneMore(wb, toks, Open(TEl));
    OneMore(wb, toks + [Open(TEl)], Chars(t));
    OneMore(wb, toks + [Open(TEl)] + [Chars(t)], Close(TEl));
    hide After, Flushed, RowClosed, Column;
  }

  lemma ReadsInline(wb: Workbook, toks: seq<Token>, t: Option<string>)
    requires Inward(After(wb, toks)) && After(wb, toks).cell.texts.inline == ""
    ensures var p, q := After(wb, toks), After(wb, toks + InlineToks(t));
            && Inward(q) && q.row == p.row && q.account == p.account && q.sheet == p.sheet
            && q.cell == (if t.None? then p.cell else p.cell.(texts := p.cell.texts.(inline := t.value)))
  {
    if t.Some? {
      var text := toks + [Open(IsEl)] + [Open(TEl)] + [Chars(t.value)] + [Close(TEl)];
      OneMore(wb, toks, Open(IsEl));
      ReadsText(wb, toks + [Open(IsEl)], t.value);
      OneMore(wb, text, Close(IsEl));
      assert text + [Close(IsEl)] == toks + InlineToks(t);
      hide After, Flushed, RowClosed, Column;
    } else {
      assert toks + InlineToks(t) == toks;
    }
  }

  /** A row number, or nothing: anything that does not go on with letters. */
  predicate Tail(nr: string) {
    nr == "" || !IsLetter(nr[0])
  }

  function ElementOf(w: Wrote, nr: string): Element {
    CellEl(Name(w.col) + nr, w.typ, w.style)
  }

  function ContentToks(w: Wrote): seq<Token> {
    FormulaToks(w.formula) + ValueToks(w.value) + InlineToks(w.inline)
  }

  function CellToks(w: Wrote, nr: string): seq<Token> {
    [Open(ElementOf(w, nr))] + ContentToks(w) + [Close(ElementOf(w, nr))]
  }

  function CellsToks(cells: seq<Wrote>, nr: string): seq<Token> {
    if cells == [] then [] else CellsToks(cells[..|cells| - 1], nr) + CellToks(cells[|cells| - 1], nr)
  }

  /** The cell as it is in hand before it closes. */
  lemma ReadsContent(wb: Workbook, toks: seq<Token>, w: Wrote, nr: string)
    requires Tail(nr) && w.col <= 16383
    requires After(wb, toks).at == IN_ROW && !After(wb, toks).sheet.tooSparse
    ensures var p, q := After(wb, toks), After(wb, toks + [Open(ElementOf(w, nr))] + ContentToks(w));
            && Inward(q) && q.cell == Meant(w) && q.row == p.row && q.account == p.account
            && q.sheet == p.sheet.(tally := q.sheet.tally)
  {
    var begun := toks + [Open(ElementOf(w, nr))];
    OneMore(wb, toks, Open(ElementOf(w, nr)));
    ColumnOfName(w.col, nr);
    hide Column, Name;
    ReadsFormula(wb, begun, w.formula);
    ReadsValue(wb, begun + FormulaToks(w.formula), w.value);
    ReadsInline(wb, begun + FormulaToks(w.formula) + ValueToks(w.value), w.inline);
    assert begun + ContentToks(w)
           == begun + FormulaToks(w.formula) + ValueToks(w.value) + InlineToks(w.inline);
  }

  lemma NotSparseBefore(wb: Workbook, toks: seq<Token>, more: seq<Token>)
    requires !After(wb, toks + more).sheet.tooSparse
    ensures !After(wb, toks).sheet.tooSparse
  {
    assert (toks + more)[..|toks|] == toks;
    if After(wb, toks).sheet.tooSparse {
      GivenUp(wb, toks + more, |toks|);
    }
  }

  lemma Regrouped(toks: seq<Token>, open: Token, content: seq<Token>, close: Token)
    ensures toks + [open] + content + [close] == toks + ([open] + content + [close])
  {
  }

  lemma ReadsCell(wb: Workbook, toks: seq<Token>, w: Wrote, nr: string)
    requires Tail(nr) && w.col <= 16383 && After(wb, toks).at == IN_ROW
    requires !After(wb, toks + CellToks(w, nr)).sheet.tooSparse
    ensures var p, q := After(wb, toks), After(wb, toks + CellToks(w, nr));
            && q.at == IN_ROW && q.sheet.rows == p.sheet.rows && q.account.shut == p.account.shut
            && q.account.placed ==
               p.account.placed + [Placed(w.col, CellText(wb, Meant(w)), p.account.flushed)]
  {
    NotSparseBefore(wb, toks, CellToks(w, nr));
    ReadsContent(wb, toks, w, nr);
    var before := toks + [Open(ElementOf(w, nr))] + ContentToks(w);
    OneMore(wb, before, Close(ElementOf(w, nr)));
    Regrouped(toks, Open(ElementOf(w, nr)), ContentToks(w), Close(ElementOf(w, nr)));
    hide After, CellText, Tallied, Meant, ContentToks, ElementOf, CellToks;
  }

  /** The cells of a row, as placed. */
  predicate PlacedAsWritten(wb: Workbook, placed: seq<Placed>, cells: seq<Wrote>) {
    && |placed| == |cells|
    && forall i :: 0 <= i < |cells| ==> placed[i].col == cells[i].col && placed[i].text == CellText(wb, Meant(cells[i]))
  }

  predicate InFormat(cells: seq<Wrote>) {
    forall i :: 0 <= i < |cells| ==> cells[i].col <= 16383
  }

  lemma LastApart<T>(s: seq<T>)
    requires s != []
    ensures s[..|s| - 1] + [s[|s| - 1]] == s
  {
  }

  lemma CellsToksSnoc(toks: seq<Token>, cells: seq<Wrote>, nr: string)
    requires cells != []
    ensures toks + CellsToks(cells, nr)
            == toks + CellsToks(cells[..|cells| - 1], nr) + CellToks(cells[|cells| - 1], nr)
  {
    hide CellToks;
  }

  lemma PlacedSnoc(wb: Workbook, placed: seq<Placed>, cells: seq<Wrote>, w: Wrote, n: nat)
    requires PlacedAsWritten(wb, placed, cells)
    ensures PlacedAsWritten(wb, placed + [Placed(w.col, CellText(wb, Meant(w)), n)], cells + [w])
  {
    hide CellText, Meant;
  }

  lemma {:induction false} ReadsCells(wb: Workbook, toks: seq<Token>, cells: seq<Wrote>, nr: string)
    requires Tail(nr) && InFormat(cells) && After(wb, toks).at == IN_ROW && After(wb, toks).account.placed == []
    requires !After(wb, toks + CellsToks(cells, nr)).sheet.tooSparse
    ensures var p, q := After(wb, toks), After(wb, toks + CellsToks(cells, nr));
            && q.at == IN_ROW && q.sheet.rows == p.sheet.rows && q.account.shut == p.account.shut
            && PlacedAsWritten(wb, q.account.placed, cells)
  {
    if cells == [] {
      assert toks + CellsToks(cells, nr) == toks;
    } else {
      var front, last := cells[..|cells| - 1], cells[|cells| - 1];
      var before := toks + CellsToks(front, nr);
      CellsToksSnoc(toks, cells, nr);
      LastApart(cells);
      hide After, CellText, Meant, CellsToks, CellToks, PlacedAsWritten;
      NotSparseBefore(wb, before, CellToks(last, nr));
      ReadsCells(wb, toks, front, nr);
      ReadsCell(wb, before, last, nr);
      PlacedSnoc(wb, After(wb, before).account.placed, front, last, After(wb, before).account.flushed);
    }
  }

  datatype WrittenRow = WrittenRow(nr: string, cells: seq<Wrote>)

  function RowToks(r: WrittenRow): seq<Token> {
    [Open(RowEl)] + CellsToks(r.cells, r.nr) + [Close(RowEl)]
  }

  function SheetToks(rows: seq<WrittenRow>): seq<Token> {
    if rows == [] then [] else SheetToks(rows[..|rows| - 1]) + RowToks(rows[|rows| - 1])
  }

  predicate Rising(cells: seq<Wrote>) {
    forall i :: 0 < i < |cells| ==> cells[i - 1].col < cells[i].col
  }

  /** A row whose cells stand in rising columns of the format. */
  predicate Proper(r: WrittenRow) {
    Tail(r.nr) && InFormat(r.cells) && Rising(r.cells)
  }

  predicate HasText(wb: Workbook, cells: seq<Wrote>) {
    exists i :: 0 <= i < |cells| && !Blank(CellText(wb, Meant(cells[i])))
  }

  /** The rows that show something. */
  function WithText(wb: Workbook, rows: seq<WrittenRow>): seq<WrittenRow> {
    if rows == [] then []
    else
      WithText(wb, rows[..|rows| - 1])
      + if HasText(wb, rows[|rows| - 1].cells) then [rows[|rows| - 1]] else []
  }

  /** The texts of a row stand at their cells' columns, and nothing else stands anywhere. */
  predicate ShowsRow(wb: Workbook, texts: seq<string>, cells: seq<Wrote>) {
    && (forall i :: 0 <= i < |cells| ==>
          cells[i].col < |texts| && texts[cells[i].col] == CellText(wb, Meant(cells[i])))
    && (forall c :: 0 <= c < |texts| && (forall i :: 0 <= i < |cells| ==> cells[i].col != c) ==> texts[c] == "")
  }

  lemma RowOfShows(wb: Workbook, placed: seq<Placed>, cells: seq<Wrote>)
    requires PlacedAsWritten(wb, placed, cells) && Rising(cells)
    ensures ShowsRow(wb, RowOf(placed), cells)
  {
    hide CellText, Meant, RowOf;
    assert Increasing(placed);
    LandExactlyWhenIncreasing(placed);
    forall i | 0 <= i < |cells|
      ensures cells[i].col < |RowOf(placed)| && RowOf(placed)[cells[i].col] == CellText(wb, Meant(cells[i]))
    {
      CellIsThere(placed, i);
      assert Position(placed, i) == placed[i].col;
    }
    forall c | 0 <= c < |RowOf(placed)| && (forall i :: 0 <= i < |cells| ==> cells[i].col != c)
      ensures RowOf(placed)[c] == ""
    {
      assert !Taken(placed, c) by {
        if i :| 0 <= i < |placed| && Position(placed, i) == c {
          assert placed[i].col == cells[i].col;
        }
      }
      RestIsEmpty(placed, c);
    }
  }

  lemma ShownIsEmpty(wb: Workbook, texts: seq<string>, cells: seq<Wrote>)
    requires ShowsRow(wb, texts, cells)
    ensures RowIsEmpty(texts) <==> !HasText(wb, cells)
  {
    assert Blank("");
    hide CellText, Meant, Blank;
    if i :| 0 <= i < |cells| && !Blank(CellText(wb, Meant(cells[i]))) {
      assert !Blank(texts[cells[i].col]);
    }
  }

  lemma FilledShows(wb: Workbook, texts: seq<string>, width: nat, cells: seq<Wrote>)
    requires ShowsRow(wb, texts, cells)
    ensures ShowsRow(wb, Filled(texts, width), cells)
  {
    hide CellText, Meant;
  }

  /** Between two rows of a sheet. */
  predicate Outside(p: Parser) {
    p.at == Inside(false, false, false, false, false, false) && !p.sheet.tooSparse
  }

  lemma ReadsRowsCells(wb: Workbook, toks: seq<Token>, r: WrittenRow)
    requires Proper(r) && Outside(After(wb, toks))
    requires !After(wb, toks + [Open(RowEl)] + CellsToks(r.cells, r.nr)).sheet.tooSparse
    ensures var p, q := After(wb, toks), After(wb, toks + [Open(RowEl)] + CellsToks(r.cells, r.nr));
            && q.at == IN_ROW && q.sheet.rows == p.sheet.rows
            && ShowsRow(wb, q.row.cells, r.cells) && (RowIsEmpty(q.row.cells) <==> !HasText(wb, r.cells))
  {
    var begun := toks + [Open(RowEl)];
    var before := begun + CellsToks(r.cells, r.nr);
    OneMore(wb, toks, Open(RowEl));
    ReadsCells(wb, begun, r.cells, r.nr);
    RowIsItsCells(wb, before);
    hide After, CellText, Meant, CellsToks, ShowsRow, PlacedAsWritten, RowOf, RowIsEmpty, HasText;
    RowOfShows(wb, After(wb, before).account.placed, r.cells);
    ShownIsEmpty(wb, RowOf(After(wb, before).account.placed), r.cells);
  }

  lemma ReadsRow(wb: Workbook, toks: seq<Token>, r: WrittenRow)
    requires Proper(r) && Outside(After(wb, toks)) && !After(wb, toks + RowToks(r)).sheet.tooSparse
    ensures var p, q := After(wb, toks), After(wb, toks + RowToks(r));
            && Outside(q)
            && if HasText(wb, r.cells) then
                 && |q.sheet.rows| == |p.sheet.rows| + 1
                 && q.sheet.rows[..|p.sheet.rows|] == p.sheet.rows
                 && ShowsRow(wb, q.sheet.rows[|p.sheet.rows|], r.cells)
               else q.sheet.rows == p.sheet.rows
  {
    hide CellsToks, ShowsRow, RowIsEmpty, Proper, HasText;
    var before := toks + [Open(RowEl)] + CellsToks(r.cells, r.nr);
    assert toks + RowToks(r) == before + [Close(RowEl)];
    NotSparseBefore(wb, before, [Close(RowEl)]);
    ReadsRowsCells(wb, toks, r);
    OneMore(wb, before, Close(RowEl));
  }

  predicate ShowsRows(wb: Workbook, texts: seq<seq<string>>, rows: seq<WrittenRow>) {
    |texts| == |rows| && forall k :: 0 <= k < |rows| ==> ShowsRow(wb, texts[k], rows[k].cells)
  }

  lemma ShowsRowsSnoc(wb: Workbook, before: seq<seq<string>>, after: seq<seq<string>>, shown: seq<WrittenRow>,
                      r: WrittenRow)
    requires ShowsRows(wb, before, shown)
    requires |after| == |before| + 1 && after[..|before|] == before && ShowsRow(wb, after[|before|], r.cells)
    ensures ShowsRows(wb, after, shown + [r])
  {
    hide ShowsRow;
    forall k | 0 <= k < |before| ensures ShowsRow(wb, after[k], shown[k].cells) {
      assert after[k] == after[..|before|][k];
    }
  }

  /** One row more, if it shows something. */
  lemma ReadsRowMore(wb: Workbook, toks: seq<Token>, shown: seq<WrittenRow>, r: WrittenRow)
    requires Proper(r) && Outside(After(wb, toks)) && !After(wb, toks + RowToks(r)).sheet.tooSparse
    requires ShowsRows(wb, After(wb, toks).sheet.rows, shown)
    ensures var q := After(wb, toks + RowToks(r));
            Outside(q) && ShowsRows(wb, q.sheet.rows, shown + if HasText(wb, r.cells) then [r] else [])
  {
    hide *;
    ReadsRow(wb, toks, r);
    if HasText(wb, r.cells) {
      ShowsRowsSnoc(wb, After(wb, toks).sheet.rows, After(wb, toks + RowToks(r)).sheet.rows, shown, r);
    } else {
      assert shown + [] == shown;
    }
  }

  lemma WithTextSnoc(wb: Workbook, front: seq<WrittenRow>, r: WrittenRow)
    ensures WithText(wb, front + [r]) == WithText(wb, front) + if HasText(wb, r.cells) then [r] else []
  {
    assert (front + [r])[..|front|] == front;
  }

  lemma SheetToksSnoc(front: seq<WrittenRow>, r: WrittenRow)
    ensures SheetToks(front + [r]) == SheetToks(front) + RowToks(r)
  {
    assert (front + [r])[..|front|] == front;
  }

  lemma ReadsNothing(wb: Workbook)
    ensures Outside(After(wb, SheetToks([]))) && ShowsRows(wb, After(wb, SheetToks([])).sheet.rows, WithText(wb, []))
  {
  }

  lemma {:induction false} ReadsRows(wb: Workbook, rows: seq<WrittenRow>)
    requires !After(wb, SheetToks(rows)).sheet.tooSparse && forall k :: 0 <= k < |rows| ==> Proper(rows[k])
    ensures var q := After(wb, SheetToks(rows));
            Outside(q) && ShowsRows(wb, q.sheet.rows, WithText(wb, rows))
  {
    hide *;
    if rows == [] {
      ReadsNothing(wb);
    } else {
      var front, last := rows[..|rows| - 1], rows[|rows| - 1];
      assert rows == front + [last];
      SheetToksSnoc(front, last);
      WithTextSnoc(wb, front, last);
      NotSparseBefore(wb, SheetToks(front), RowToks(last));
      ReadsRows(wb, front);
      ReadsRowMore(wb, SheetToks(front), WithText(wb, front), last);
    }
  }

  /** Main result: a sheet written out cell by cell, each with its reference, reads back: unless it is given up,
      the rows with some text are its rows, in order, each text stands at its own column, and all other places are
      empty. */
  lemma WrittenSheetReadsBack(wb: Workbook, rows: seq<WrittenRow>)
    requires forall k :: 0 <= k < |rows| ==> Proper(rows[k])
    ensures var s := After(wb, SheetToks(rows)).sheet;
            var sheet := Widened(s.rows, s.maxCols);
            s.tooSparse || ShowsRows(wb, sheet, WithText(wb, rows))
  {
    var s := After(wb, SheetToks(rows)).sheet;
    if !s.tooSparse {
      ReadsRows(wb, rows);
      AlwaysSane(wb, SheetToks(rows));
      WidenedIsRectangular(s.rows, s.maxCols);
      var shown := WithText(wb, rows);
      hide After, Widened, CellText, Meant, Proper, SheetToks, WithText;
      forall k | 0 <= k < |shown| ensures ShowsRow(wb, Widened(s.rows, s.maxCols)[k], shown[k].cells) {
        FilledShows(wb, s.rows[k], s.maxCols, shown[k].cells);
      }
    }
  }

  lemma RowOfC5(wb: Workbook, w: Wrote, text: string)
    requires wb.mode == "value" && w == Wrote(2, "str", 0, None, Some(text), None)
    ensures var q := After(wb, [Open(RowEl)] + CellToks(w, "5"));
            q.row.cells == ["", "", text] && q.sheet.rows == [] && !q.sheet.tooSparse
  {
    var row := [Open(RowEl)];
    var before := row + [Open(ElementOf(w, "5"))] + ContentToks(w);
    OneMore(wb, [], Open(RowEl));
    assert [] + row == row;
    ReadsContent(wb, row, w, "5");
    OneMore(wb, before, Close(ElementOf(w, "5")));
    assert before + [Close(ElementOf(w, "5"))] == row + CellToks(w, "5");
    assert Landed([], 2, text) == ["", "", text];
  }

  /** The example: one cell C5 with a text stands in the third column of its row, behind two empties. */
  lemma CellC5(wb: Workbook, text: string)
    requires wb.mode == "value" && !Blank(text)
    ensures var w := Wrote(2, "str", 0, None, Some(text), None);
            && Name(w.col) + "5" == "C5"
            && After(wb, [Open(RowEl)] + CellToks(w, "5") + [Close(RowEl)]).sheet.rows == [["", "", text]]
  {
    var w := Wrote(2, "str", 0, None, Some(text), None);
    RowOfC5(wb, w, text);
    OneMore(wb, [Open(RowEl)] + CellToks(w, "5"), Close(RowEl));
    assert !RowIsEmpty(["", "", text]) by {
      assert !Blank(["", "", text][2]);
    }
    assert [] + [["", "", text]] == [["", "", text]];
    hide After, CellToks, RowIsEmpty;
  }
}
