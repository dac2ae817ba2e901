/**
Which worksheet streams come through the parser (internal/fileconvert/convert_xlsx_sheet.go:161-265) with every
cell in exactly one row, and how many empties a token can put in. Conditions are on the tokens alone.
*/
module SheetCells {
  import opened Blanks
  import opened Runs
  import opened SheetParser

  lemma OneMore(wb: Workbook, toks: seq<Token>, tok: Token)
    ensures After(wb, toks + [tok]) == Next(wb, After(wb, toks), tok)
  {
    FoldSnoc(By(wb), Begin(), toks, tok);
  }

  // ---------------------------------------------------------------- what the tokens tell

  /** The last row token opened a row. */
  predicate RowOpen(toks: seq<Token>) {
    toks != [] &&
    var tok := toks[|toks| - 1];
    tok == Open(RowEl) || (tok != Close(RowEl) && RowOpen(toks[..|toks| - 1]))
  }

  predicate ClosesCell(tok: Token) {
    tok.Close? && tok.e.CellEl?
  }

  /** A cell was closed in the row opened last, while that row was open. */
  predicate CellSince(toks: seq<Token>) {
    toks != [] &&
    var before, tok := toks[..|toks| - 1], toks[|toks| - 1];
    tok != Open(RowEl) && ((ClosesCell(tok) && RowOpen(before)) || CellSince(before))
  }

  /** No row with a cell in it is left open where another begins, or closed where none is open. */
  predicate Tidy(toks: seq<Token>) {
    toks == [] ||
    (var before, tok := toks[..|toks| - 1], toks[|toks| - 1];
     Tidy(before) && (CellSince(before) ==> tok != if RowOpen(before) then Open(RowEl) else Close(RowEl)))
  }

  /** What a token does to the rows. */
  datatype Effect = Nothing | CellPlaced(nr: nat) | RowStarts | RowEnds

  function EffectOf(p: Parser, tok: Token): Effect {
    if tok == Open(RowEl) then RowStarts
    else if tok == Close(RowEl) then RowEnds
    else if ClosesCell(tok) && p.at.row then CellPlaced(p.account.flushed)
    else Nothing
  }

  predicate Takes(p: Parser, eff: Effect, q: Parser) {
    var a, b := p.account, q.account;
    match eff
    case Nothing => q.at.row == p.at.row && b == a && q.row.cells == p.row.cells
    case CellPlaced(nr) =>
      && p.at.row && q.at.row && nr == a.flushed && b.flushed == a.flushed + 1 && b.shut == a.shut
      && |b.placed| == |a.placed| + 1 && b.placed[..|a.placed|] == a.placed && b.placed[|a.placed|].nr == nr
      && b.lost == a.lost && b.again == a.again && q.row.cells != []
    case RowStarts =>
      && q.at.row && b.placed == [] && b.shut == a.shut && b.flushed == a.flushed && b.again == a.again
      && b.lost == a.lost + (if p.at.row then |p.row.cells| else 0) && q.row.cells == []
    case RowEnds =>
      && !q.at.row && b.placed == a.placed && b.shut == a.shut + [a.placed] && b.flushed == a.flushed
      && b.lost == a.lost && b.again == a.again + (if p.at.row then 0 else |p.row.cells|)
      && q.row.cells == p.row.cells
  }

  lemma FlushTakes(wb: Workbook, p: Parser)
    requires p.at.row && !Flushed(wb, p).sheet.tooSparse
    ensures Takes(p, CellPlaced(p.account.flushed), Flushed(wb, p))
  {
    hide CellText, Tallied;
  }

  lemma CloseTakes(wb: Workbook, p: Parser, e: Element)
    requires !p.sheet.tooSparse && !Closed(wb, p, e).sheet.tooSparse
    ensures Takes(p, EffectOf(p, Close(e)), Closed(wb, p, e))
  {
    hide Flushed, RowIsEmpty;
    if e.CellEl? && p.at.row {
      FlushTakes(wb, p);
    }
  }

  lemma StepTakes(wb: Workbook, p: Parser, tok: Token)
    requires !p.sheet.tooSparse && !Next(wb, p, tok).sheet.tooSparse
    ensures Takes(p, EffectOf(p, tok), Next(wb, p, tok))
  {
    hide Closed, Column;
    if tok.Close? {
      CloseTakes(wb, p, tok.e);
    }
  }

  predicate Told(p: Parser, open: bool, cells: bool) {
    p.at.row == open && (p.account.placed != [] <==> cells) && (p.row.cells != [] <==> cells)
  }

  lemma StepTells(wb: Workbook, p: Parser, toks: seq<Token>, tok: Token)
    requires Told(p, RowOpen(toks), CellSince(toks)) && !p.sheet.tooSparse && !Next(wb, p, tok).sheet.tooSparse
    ensures Told(Next(wb, p, tok), RowOpen(toks + [tok]), CellSince(toks + [tok]))
  {
    StepTakes(wb, p, tok);
    hide Next;
    assert (toks + [tok])[..|toks|] == toks;
  }

  /** A sheet that is not given up was not given up before. */
  lemma Front(wb: Workbook, toks: seq<Token>)
    requires toks != [] && !After(wb, toks).sheet.tooSparse
    ensures var before := toks[..|toks| - 1];
            && !After(wb, before).sheet.tooSparse
            && After(wb, toks) == Next(wb, After(wb, before), toks[|toks| - 1])
            && before + [toks[|toks| - 1]] == toks
  {
  }

  lemma {:induction false} TokensTell(wb: Workbook, toks: seq<Token>)
    requires !After(wb, toks).sheet.tooSparse
    ensures Told(After(wb, toks), RowOpen(toks), CellSince(toks))
  {
    if toks != [] {
      Front(wb, toks);
      TokensTell(wb, toks[..|toks| - 1]);
      StepTells(wb, After(wb, toks[..|toks| - 1]), toks[..|toks| - 1], toks[|toks| - 1]);
    }
  }

  // ---------------------------------------------------------------- each cell once

  /** How often cell number n is in a row. */
  function Times(row: seq<Placed>, n: nat): nat {
    if row == [] then 0 else Times(row[..|row| - 1], n) + if row[|row| - 1].nr == n then 1 else 0
  }

  function TimesShut(shut: seq<seq<Placed>>, n: nat): nat {
    if shut == [] then 0 else TimesShut(shut[..|shut| - 1], n) + Times(shut[|shut| - 1], n)
  }

  /** How often cell number n is in the rows closed and the one being read. */
  function Seen(p: Parser, n: nat): nat {
    TimesShut(p.account.shut, n) + if p.at.row then Times(p.account.placed, n) else 0
  }

  lemma TimesSnoc(row: seq<Placed>, c: Placed, n: nat)
    ensures Times(row + [c], n) == Times(row, n) + if c.nr == n then 1 else 0
  {
    assert (row + [c])[..|row|] == row;
  }

  lemma TimesShutSnoc(shut: seq<seq<Placed>>, row: seq<Placed>, n: nat)
    ensures TimesShut(shut + [row], n) == TimesShut(shut, n) + Times(row, n)
  {
    assert (shut + [row])[..|shut|] == shut;
  }

  lemma {:induction false} FirstIsThere(row: seq<Placed>)
    requires row != []
    ensures Times(row, row[0].nr) > 0
  {
    if |row| > 1 {
      FirstIsThere(row[..|row| - 1]);
    }
  }

  /** Numbers are given once; a row being read is in no closed row, a closed one is. */
  predicate Numbered(p: Parser, n: nat) {
    var here, shut := Times(p.account.placed, n), TimesShut(p.account.shut, n);
    && here <= 1
    && (n >= p.account.flushed ==> here == 0 && shut == 0)
    && (here == 1 ==> if p.at.row then shut == 0 else shut >= 1)
  }

  /** Cell n was lost, or is there twice, whatever follows. */
  predicate Spoilt(p: Parser, n: nat) {
    var here, shut := Times(p.account.placed, n), TimesShut(p.account.shut, n);
    n < p.account.flushed && (shut >= 2 || (shut == 0 && here == 0))
  }

  lemma EffectKeepsNumbers(p: Parser, eff: Effect, q: Parser, n: nat)
    requires Numbered(p, n) && Takes(p, eff, q)
    ensures Numbered(q, n)
    ensures Spoilt(p, n) ==> Spoilt(q, n)
  {
    match eff
    case CellPlaced(_) => TimesSnoc(p.account.placed, q.account.placed[|p.account.placed|], n);
      assert q.account.placed == p.account.placed + [q.account.placed[|p.account.placed|]];
    case RowEnds => TimesShutSnoc(p.account.shut, p.account.placed, n);
    case _ =>
  }

  lemma {:induction false} AlwaysNumbered(wb: Workbook, toks: seq<Token>, n: nat)
    requires !After(wb, toks).sheet.tooSparse
    ensures Numbered(After(wb, toks), n)
  {
    if toks != [] {
      var before, tok := toks[..|toks| - 1], toks[|toks| - 1];
      Front(wb, toks);
      AlwaysNumbered(wb, before, n);
      StepTakes(wb, After(wb, before), tok);
      EffectKeepsNumbers(After(wb, before), EffectOf(After(wb, before), tok), After(wb, toks), n);
    }
  }

  /** A token that spoils nothing leaves each cell where it is once, the new one included. */
  lemma TidyStep(p: Parser, eff: Effect, q: Parser, n: nat)
    requires Takes(p, eff, q) && Numbered(p, n) && (n < p.account.flushed ==> Seen(p, n) == 1)
    requires p.account.placed != [] ==> eff != if p.at.row then RowStarts else RowEnds
    ensures n < q.account.flushed ==> Seen(q, n) == 1
  {
    match eff
    case CellPlaced(_) => TimesSnoc(p.account.placed, q.account.placed[|p.account.placed|], n);
      assert q.account.placed == p.account.placed + [q.account.placed[|p.account.placed|]];
    case RowEnds => TimesShutSnoc(p.account.shut, p.account.placed, n);
    case _ =>
  }

  /** One that leaves an open row behind, or closes a closed one again, spoils the first cell of that row. */
  lemma UntidyStep(p: Parser, eff: Effect, q: Parser)
    requires Takes(p, eff, q) && p.account.placed != [] && Numbered(p, p.account.placed[0].nr)
    requires eff == if p.at.row then RowStarts else RowEnds
    ensures Spoilt(q, p.account.placed[0].nr)
  {
    var n := p.account.placed[0].nr;
    FirstIsThere(p.account.placed);
    TimesShutSnoc(p.account.shut, p.account.placed, n);
  }

  lemma {:induction false} TidyShowsEachOnce(wb: Workbook, toks: seq<Token>, n: nat)
    requires !After(wb, toks).sheet.tooSparse && Tidy(toks) && n < After(wb, toks).account.flushed
    ensures Seen(After(wb, toks), n) == 1
  {
    var before, tok := toks[..|toks| - 1], toks[|toks| - 1];
    var p := After(wb, before);
    Front(wb, toks);
    if n < p.account.flushed {
      TidyShowsEachOnce(wb, before, n);
    }
    AlwaysNumbered(wb, before, n);
    TokensTell(wb, before);
    StepTakes(wb, p, tok);
    TidyStep(p, EffectOf(p, tok), After(wb, toks), n);
  }

  lemma {:induction false} UntidySpoilsOne(wb: Workbook, toks: seq<Token>) returns (n: nat)
    requires !After(wb, toks).sheet.tooSparse && !Tidy(toks)
    ensures Spoilt(After(wb, toks), n)
  {
    var before, tok := toks[..|toks| - 1], toks[|toks| - 1];
    var p := After(wb, before);
    Front(wb, toks);
    StepTakes(wb, p, tok);
    if Tidy(before) {
      TokensTell(wb, before);
      n := p.account.placed[0].nr;
      AlwaysNumbered(wb, before, n);
      UntidyStep(p, EffectOf(p, tok), After(wb, toks));
    } else {
      n := UntidySpoilsOne(wb, before);
      AlwaysNumbered(wb, before, n);
      EffectKeepsNumbers(p, EffectOf(p, tok), After(wb, toks), n);
    }
  }

  /** Main result, for any stream whose sheet is not given up: every cell read is in exactly one of the rows if and
      only if no row with a cell in it was left open where another began, or closed where none was open. */
  lemma EachCellOnceExactlyWhen(wb: Workbook, toks: seq<Token>)
    requires !After(wb, toks).sheet.tooSparse
    ensures (forall n :: 0 <= n < After(wb, toks).account.flushed ==> Seen(After(wb, toks), n) == 1) <==> Tidy(toks)
  {
    if Tidy(toks) {
      forall n | 0 <= n < After(wb, toks).account.flushed ensures Seen(After(wb, toks), n) == 1 {
        TidyShowsEachOnce(wb, toks, n);
      }
    } else {
      var n := UntidySpoilsOne(wb, toks);
      AlwaysNumbered(wb, toks, n);
      assert Seen(After(wb, toks), n) != 1;
    }
  }

  /** The widths left behind and counted again say the same. */
  lemma {:induction false} NothingLostExactlyWhen(wb: Workbook, toks: seq<Token>)
    requires !After(wb, toks).sheet.tooSparse
    ensures var a := After(wb, toks).account; a.lost == 0 && a.again == 0 <==> Tidy(toks)
  {
    if toks != [] {
      var before, tok := toks[..|toks| - 1], toks[|toks| - 1];
      Front(wb, toks);
      NothingLostExactlyWhen(wb, before);
      TokensTell(wb, before);
      StepTakes(wb, After(wb, before), tok);
    }
  }

  // ---------------------------------------------------------------- streams whose elements nest

  datatype Tag = RowTag | CellTag | OtherTag

  function TagOf(e: Element): Tag {
    if e.RowEl? then RowTag else if e.CellEl? then CellTag else OtherTag
  }

  function Popped(stack: seq<Tag>): seq<Tag> {
    if stack == [] then [] else stack[..|stack| - 1]
  }

  function Pushed(stack: seq<Tag>, tok: Token): seq<Tag> {
    match tok
    case Open(e) => stack + [TagOf(e)]
    case Close(_) => Popped(stack)
    case Chars(_) => stack
  }

  /** The elements still open. */
  function Nest(toks: seq<Token>): seq<Tag> {
    if toks == [] then [] else Pushed(Nest(toks[..|toks| - 1]), toks[|toks| - 1])
  }

  predicate Fits(stack: seq<Tag>, tok: Token) {
    tok.Close? ==> stack != [] && stack[|stack| - 1] == TagOf(tok.e)
  }

  /** What an XML decoder delivers: every element is closed by its own end, innermost first. */
  predicate WellNested(toks: seq<Token>) {
    toks == [] || (WellNested(toks[..|toks| - 1]) && Fits(Nest(toks[..|toks| - 1]), toks[|toks| - 1]))
  }

  /** Of the rows and cells still open the innermost is a cell. */
  predicate InCell(stack: seq<Tag>) {
    stack != [] && (stack[|stack| - 1].CellTag? || (stack[|stack| - 1].OtherTag? && InCell(stack[..|stack| - 1])))
  }

  /** The column of a cell that can still be flushed is a reference's, or no further than the row has come. */
  predicate Steady(p: Parser, stack: seq<Tag>) {
    && (p.at.row ==> p.row.next <= |p.row.cells|)
    && (p.at.row && InCell(stack) ==> p.cell.col < MAX_COLUMNS || p.cell.col <= |p.row.cells|)
  }

  lemma FlushIsSteady(wb: Workbook, p: Parser)
    requires p.at.row && (p.cell.col < MAX_COLUMNS || p.cell.col <= |p.row.cells|)
    requires !Flushed(wb, p).sheet.tooSparse
    ensures var q := Flushed(wb, p);
            && q.at == p.at && q.row.next <= |q.row.cells| && q.cell == p.cell && p.cell.col <= |q.row.cells|
            && q.sheet.pad < p.sheet.pad + MAX_COLUMNS
  {
    hide CellText, Tallied;
  }

  lemma StepIsSteady(wb: Workbook, p: Parser, stack: seq<Tag>, tok: Token)
    requires !p.sheet.tooSparse && !Next(wb, p, tok).sheet.tooSparse && Steady(p, stack) && Fits(stack, tok)
    ensures Steady(Next(wb, p, tok), Pushed(stack, tok))
    ensures Next(wb, p, tok).sheet.pad < p.sheet.pad + MAX_COLUMNS
  {
    hide Flushed, RowIsEmpty, Column;
    match tok
    case Close(CellEl(_, _, _)) =>
      if p.at.row {
        FlushIsSteady(wb, p);
      }
    case Open(CellEl(ref, _, _)) => ColumnInFormat(ref);
    case _ =>
  }

  lemma PadIsBounded(wb: Workbook, p: Parser, stack: seq<Tag>, tok: Token)
    requires !p.sheet.tooSparse && Steady(p, stack) && Fits(stack, tok)
    ensures Next(wb, p, tok).sheet.pad < p.sheet.pad + MAX_COLUMNS
  {
    hide CellText, Tallied, RowIsEmpty;
  }

  lemma {:induction false} AlwaysSteady(wb: Workbook, toks: seq<Token>)
    requires WellNested(toks) && !After(wb, toks).sheet.tooSparse
    ensures Steady(After(wb, toks), Nest(toks))
  {
    if toks != [] {
      Front(wb, toks);
      AlwaysSteady(wb, toks[..|toks| - 1]);
      StepIsSteady(wb, After(wb, toks[..|toks| - 1]), Nest(toks[..|toks| - 1]), toks[|toks| - 1]);
    }
  }

  /** Main result: in whatever way rows and cells are nested, no token of a well-nested stream puts in more than
      16383 empties, the one that the sheet is given up for included. */
  lemma EmptiesAreBounded(wb: Workbook, toks: seq<Token>, tok: Token)
    requires WellNested(toks + [tok]) && !After(wb, toks).sheet.tooSparse
    ensures After(wb, toks + [tok]).sheet.pad <= After(wb, toks).sheet.pad + MAX_COLUMNS - 1
  {
    assert (toks + [tok])[..|toks|] == toks;
    OneMore(wb, toks, tok);
    AlwaysSteady(wb, toks);
    PadIsBounded(wb, After(wb, toks), Nest(toks), tok);
  }

  // ---------------------------------------------------------------- how a cell gets lost, or doubled

  const CELL := CellEl("", "str", 0)

  /** A cell of nothing but its text. */
  function CellOf(text: string): seq<Token> {
    [Open(CELL)] + [Open(VEl)] + [Chars(text)] + [Close(VEl)] + [Close(CELL)]
  }

  lemma ReadsACell(wb: Workbook, toks: seq<Token>, text: string)
    requires wb.mode == "value"
    requires var p := After(wb, toks);
             p.row == Row([], 0) && p.at == Inside(true, false, false, false, false, false) && !p.sheet.tooSparse
    ensures var p, q := After(wb, toks), After(wb, toks + CellOf(text));
            && q.row.cells == [text] && q.at == p.at && q.sheet == p.sheet
            && q.account.flushed == p.account.flushed + 1 && q.account.shut == p.account.shut
            && q.account.placed == p.account.placed + [Placed(0, text, p.account.flushed)]
  {
    AlwaysSane(wb, toks);
    assert Landed([], 0, text) == [text] && "" + text == text;
    OneMore(wb, toks, Open(CELL));
    OneMore(wb, toks + [Open(CELL)], Open(VEl));
    OneMore(wb, toks + [Open(CELL)] + [Open(VEl)], Chars(text));
    OneMore(wb, toks + [Open(CELL)] + [Open(VEl)] + [Chars(text)], Close(VEl));
    OneMore(wb, toks + [Open(CELL)] + [Open(VEl)] + [Chars(text)] + [Close(VEl)], Close(CELL));
    assert toks + [Open(CELL)] + [Open(VEl)] + [Chars(text)] + [Close(VEl)] + [Close(CELL)] == toks + CellOf(text);
  }

  lemma NestSnoc(toks: seq<Token>, tok: Token)
    ensures Nest(toks + [tok]) == Pushed(Nest(toks), tok)
    ensures WellNested(toks + [tok]) <==> WellNested(toks) && Fits(Nest(toks), tok)
  {
    assert (toks + [tok])[..|toks|] == toks;
  }

  lemma CellNests(toks: seq<Token>, text: string)
    requires WellNested(toks)
    ensures WellNested(toks + CellOf(text)) && Nest(toks + CellOf(text)) == Nest(toks)
  {
    hide WellNested, Nest;
    NestSnoc(toks, Open(CELL));
    NestSnoc(toks + [Open(CELL)], Open(VEl));
    NestSnoc(toks + [Open(CELL)] + [Open(VEl)], Chars(text));
    NestSnoc(toks + [Open(CELL)] + [Open(VEl)] + [Chars(text)], Close(VEl));
    NestSnoc(toks + [Open(CELL)] + [Open(VEl)] + [Chars(text)] + [Close(VEl)], Close(CELL));
    assert toks + [Open(CELL)] + [Open(VEl)] + [Chars(text)] + [Close(VEl)] + [Close(CELL)] == toks + CellOf(text);
  }

  /** Both streams below are whole elements, as the XML decoder delivers them. */
  lemma BothAreWellNested(text: string)
    ensures var lost := [Open(RowEl)] + CellOf(text) + [Open(RowEl)] + [Close(RowEl)] + [Close(RowEl)];
            WellNested(lost) && Nest(lost) == []
    ensures var twice := [Open(RowEl)] + [Open(RowEl)] + CellOf(text) + [Close(RowEl)] + [Close(RowEl)];
            WellNested(twice) && Nest(twice) == []
  {
    var row := [Open(RowEl)];
    NestSnoc([], Open(RowEl));
    assert [] + row == row;
    NestSnoc(row, Open(RowEl));
    CellNests(row, text);
    CellNests(row + row, text);
    hide WellNested, Nest;
    NestSnoc(row + CellOf(text), Open(RowEl));
    NestSnoc(row + CellOf(text) + [Open(RowEl)], Close(RowEl));
    NestSnoc(row + CellOf(text) + [Open(RowEl)] + [Close(RowEl)], Close(RowEl));
    NestSnoc(row + row + CellOf(text), Close(RowEl));
    NestSnoc(row + row + CellOf(text) + [Close(RowEl)], Close(RowEl));
  }

  /** A row inside a row: the cell read before it, whatever its text, is nowhere in the sheet. */
  lemma NestedRowLosesItsCell(wb: Workbook, text: string)
    requires wb.mode == "value"
    ensures var p := After(wb, [Open(RowEl)] + CellOf(text) + [Open(RowEl)] + [Close(RowEl)] + [Close(RowEl)]);
            p.account.flushed == 1 && Seen(p, 0) == 0 && p.sheet.rows == [] && !p.sheet.tooSparse
  {
    var row := [Open(RowEl)];
    OneMore(wb, [], Open(RowEl));
    assert [] + row == row;
    ReadsACell(wb, row, text);
    hide CellText, Tallied, Flushed, RowIsEmpty, Column;
    TimesShutSnoc([], [], 0);
    TimesShutSnoc([[]], [], 0);
    OneMore(wb, row + CellOf(text), Open(RowEl));
    OneMore(wb, row + CellOf(text) + [Open(RowEl)], Close(RowEl));
    OneMore(wb, row + CellOf(text) + [Open(RowEl)] + [Close(RowEl)], Close(RowEl));
  }

  /** The cell in the inner row instead: the outer row's end shows the inner row again. */
  lemma NestedRowIsShownTwice(wb: Workbook, text: string)
    requires wb.mode == "value" && !Blank(text)
    ensures var p := After(wb, [Open(RowEl)] + [Open(RowEl)] + CellOf(text) + [Close(RowEl)] + [Close(RowEl)]);
            p.account.flushed == 1 && Seen(p, 0) == 2 && p.sheet.rows == [[text], [text]] && !p.sheet.tooSparse
  {
    var row := [Open(RowEl)];
    OneMore(wb, [], Open(RowEl));
    assert [] + row == row;
    OneMore(wb, row, Open(RowEl));
    ReadsACell(wb, row + row, text);
    var cells := [Placed(0, text, 0)];
    assert [] + cells == cells && Times(cells, 0) == 1;
    assert RowIsEmpty([text]) <==> Blank([text][0]);
    TimesShutSnoc([], cells, 0);
    TimesShutSnoc([cells], cells, 0);
    assert [] + [cells] == [cells] && [] + [[text]] == [[text]];
    hide CellText, Tallied, Flushed, RowIsEmpty, Column, Times, TimesShut;
    OneMore(wb, row + row + CellOf(text), Close(RowEl));
    OneMore(wb, row + row + CellOf(text) + [Close(RowEl)], Close(RowEl));
  }
}
