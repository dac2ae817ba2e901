/**
The worksheet parser (internal/fileconvert/convert_xlsx_sheet.go; cell references as in ECMA-376
Part 1, section 18.3.1.4): a stream of element tokens becomes a rectangle of cell texts. Date
conversion is a parameter; tokens are already decoded.
*/
module SheetParser {
  import opened Blanks
  import opened Options
  import opened Runs

  const MAX_COLUMNS := 16384
  const MAX_PAD := 0x10_0000

  // ---------------------------------------------------------------- column letters

  function Upper(c: char): char {
    if 'a' <= c <= 'z' then (c as int - 32) as char else c
  }

  predicate IsLetter(c: char) {
    'A' <= Upper(c) <= 'Z'
  }

  function LetterValue(c: char): (n: nat)
    requires IsLetter(c)
    ensures 1 <= n <= 26
  {
    Upper(c) as int - 'A' as int + 1
  }

  /** The letters a reference starts with. */
  function Letters(ref: string): (s: string)
    ensures forall i :: 0 <= i < |s| ==> IsLetter(s[i])
  {
    if ref == [] || !IsLetter(ref[0]) then [] else [ref[0]] + Letters(ref[1..])
  }

  /** Bijective base 26: A is 1, Z is 26, AA is 27. */
  function Base26(s: string): nat
    requires forall i :: 0 <= i < |s| ==> IsLetter(s[i])
  {
    if s == [] then 0 else Base26(s[..|s| - 1]) * 26 + LetterValue(s[|s| - 1])
  }

  function Min(a: int, b: int): int {
    if a < b then a else b
  }

  lemma NonEmptyIsPositive(s: string)
    requires s != [] && forall i :: 0 <= i < |s| ==> IsLetter(s[i])
    ensures Base26(s) >= 1
  {
  }

  /** The column a reference names, within the format's limit. */
  function Column(ref: string): nat {
    if Letters(ref) == [] then 0 else
      NonEmptyIsPositive(Letters(ref));
      Min(Base26(Letters(ref)) - 1, MAX_COLUMNS - 1)
  }

  lemma {:induction false} LongerIsLarger(s: string, n: nat)
    requires n <= |s| && forall i :: 0 <= i < |s| ==> IsLetter(s[i])
    ensures Base26(s[..n]) <= Base26(s)
  {
    if n == |s| {
      assert s[..n] == s;
    } else {
      LongerIsLarger(s[..|s| - 1], n);
      assert s[..|s| - 1][..n] == s[..n];
    }
  }

  lemma {:induction false} LettersAre(ref: string, n: nat)
    requires n <= |ref| && forall i :: 0 <= i < n ==> IsLetter(ref[i])
    ensures n <= |Letters(ref)| && Letters(ref)[..n] == ref[..n]
    ensures n == |ref| || !IsLetter(ref[n]) ==> Letters(ref) == ref[..n]
  {
    if n > 0 {
      LettersAre(ref[1..], n - 1);
      assert ref[..n] == [ref[0]] + ref[1..][..n - 1];
    }
  }

  method ColLettersToIdx(ref: string) returns (col: nat)
    ensures col == Column(ref)
  {
    var idx := 0;
    var i := 0;
    while i < |ref|
      invariant i <= |ref| && (forall j :: 0 <= j < i ==> IsLetter(ref[j]))
      invariant idx == Base26(ref[..i]) && idx <= MAX_COLUMNS
    {
      var c := Upper(ref[i]);
      if c < 'A' || c > 'Z' {
        break;
      }
      assert ref[..i + 1][..i] == ref[..i];
      idx := idx * 26 + (c as int - 'A' as int + 1);
      if idx > MAX_COLUMNS {
        LettersAre(ref, i + 1);
        LongerIsLarger(Letters(ref), i + 1);
        return MAX_COLUMNS - 1;
      }
      i := i + 1;
    }
    LettersAre(ref, i);
    if i > 0 {
      NonEmptyIsPositive(ref[..i]);
    }
    if idx == 0 {
      return 0;
    }
    return idx - 1;
  }

  // ---------------------------------------------------------------- shared string indexes

  predicate IsDigit(c: char) {
    '0' <= c <= '9'
  }

  function Decimal(s: string): nat
    requires forall i :: 0 <= i < |s| ==> IsDigit(s[i])
  {
    if s == [] then 0
    else assert IsDigit(s[|s| - 1]); Decimal(s[..|s| - 1]) * 10 + (s[|s| - 1] as int - '0' as int)
  }

  function SstIndex(raw: string): Option<nat> {
    if 1 <= |raw| <= 9 && (forall i :: 0 <= i < |raw| ==> IsDigit(raw[i])) then Some(Decimal(raw)) else None
  }

  method ParseSSTIndex(raw: string) returns (r: Option<nat>)
    ensures r == SstIndex(raw)
    ensures r.Some? <==> 1 <= |raw| <= 9 && forall i :: 0 <= i < |raw| ==> '0' <= raw[i] <= '9'
  {
    if raw == "" || |raw| > 9 {
      return None;
    }
    var n := 0;
    for i := 0 to |raw|
      invariant forall j :: 0 <= j < i ==> IsDigit(raw[j])
      invariant n == Decimal(raw[..i])
    {
      if raw[i] < '0' || raw[i] > '9' {
        return None;
      }
      assert raw[..i + 1][..i] == raw[..i];
      n := n * 10 + (raw[i] as int - '0' as int);
    }
    assert raw[..|raw|] == raw;
    return Some(n);
  }

  // ---------------------------------------------------------------- cell values

  datatype DateText = Date(text: string) | AsIs | UnknownFormat

  datatype Workbook = Workbook(sst: seq<string>, mode: string, date: (nat, string) -> DateText)

  datatype Flags = Flags(hasV: bool, hasF: bool, shared: bool)
  datatype Texts = Texts(v: string, f: string, inline: string)
  datatype Cell = Cell(col: nat, typ: string, style: nat, flags: Flags, texts: Texts)

  datatype Tally = Tally(unknownFmt: nat, sharedFormula: nat, noCache: nat, sstOverrun: nat)

  /** The cached value, and whether it could not be looked up or formatted. */
  function Cached(wb: Workbook, c: Cell): (string, bool, bool) {
    var raw := c.texts.v;
    if c.typ == "s" then
      var i := SstIndex(raw);
      if i.Some? && i.value < |wb.sst| then (wb.sst[i.value], false, false) else ("", true, false)
    else if c.typ == "b" then (if raw == "1" then "TRUE" else if raw == "" then "" else "FALSE", false, false)
    else if c.typ == "e" || c.typ == "str" || c.typ == "d" then (raw, false, false)
    else if c.typ == "inlineStr" then (c.texts.inline, false, false)
    else if raw == "" then (raw, false, false)
    else match wb.date(c.style, raw)
      case Date(text) => (text, false, false)
      case AsIs => (raw, false, false)
      case UnknownFormat => (raw, false, true)
  }

  predicate ShowsFormula(wb: Workbook, c: Cell) {
    (wb.mode == "formula" || wb.mode == "both") && c.flags.hasF && c.texts.f != ""
  }

  function CellText(wb: Workbook, c: Cell): string {
    var value := Cached(wb, c).0;
    if !ShowsFormula(wb, c) then value
    else if wb.mode == "formula" then c.texts.f
    else if value != "" then value + " (" + c.texts.f + ")"
    else "(" + c.texts.f + ")"
  }

  function Count(b: bool): nat {
    if b then 1 else 0
  }

  function Tallied(wb: Workbook, c: Cell, t: Tally): Tally {
    var (_, overrun, unknown) := Cached(wb, c);
    t.(sstOverrun := t.sstOverrun + Count(overrun),
       unknownFmt := t.unknownFmt + Count(unknown),
       noCache := t.noCache + Count(!ShowsFormula(wb, c) && c.flags.hasF && !c.flags.hasV))
  }

  /** The value a cell holds, by its type; only a number with a date's style has another text. */
  lemma ValueByType(wb: Workbook, c: Cell)
    ensures var v := c.texts.v; var i := SstIndex(v);
            var found := i.Some? && i.value < |wb.sst|;
            var plain := c.typ !in {"s", "b", "e", "str", "d", "inlineStr"} && v != "";
            && (c.typ == "s" ==> Cached(wb, c) == if found then (wb.sst[i.value], false, false) else ("", true, false))
            && (c.typ == "b" ==>
                  Cached(wb, c) == (if v == "1" then "TRUE" else if v == "" then "" else "FALSE", false, false))
            && (c.typ == "inlineStr" ==> Cached(wb, c) == (c.texts.inline, false, false))
            && (c.typ in {"e", "str", "d"} ==> Cached(wb, c) == (v, false, false))
            && (c.typ !in {"s", "b", "e", "str", "d", "inlineStr"} ==>
                  Cached(wb, c) == (if plain && wb.date(c.style, v).Date? then wb.date(c.style, v).text else v, false,
                                    plain && wb.date(c.style, v).UnknownFormat?))
  {
  }

  /** A formula's text takes the value's place in formula mode and stands beside it in the mode for both; each
      caveat is counted once. */
  lemma TextByMode(wb: Workbook, c: Cell, t: Tally)
    ensures var f := c.texts.f; var (value, overrun, unknown) := Cached(wb, c);
            var shows := c.flags.hasF && f != "";
            && (shows && wb.mode == "formula" ==> CellText(wb, c) == f)
            && (shows && wb.mode == "both" ==>
                  CellText(wb, c) == if value == "" then "(" + f + ")" else value + " (" + f + ")")
            && (!shows || wb.mode !in {"formula", "both"} ==>
                  && CellText(wb, c) == value
                  && Tallied(wb, c, t).noCache == t.noCache + if c.flags.hasF && !c.flags.hasV then 1 else 0)
            && (shows && wb.mode in {"formula", "both"} ==> Tallied(wb, c, t).noCache == t.noCache)
            && Tallied(wb, c, t).sstOverrun == t.sstOverrun + (if overrun then 1 else 0)
            && Tallied(wb, c, t).unknownFmt == t.unknownFmt + (if unknown then 1 else 0)
            && Tallied(wb, c, t).sharedFormula == t.sharedFormula
  {
    hide Cached;
  }

  // ---------------------------------------------------------------- parser state

  datatype Element =
    | RowEl
    | CellEl(ref: string, typ: string, style: nat)
    | VEl
    | FEl(shared: bool)
    | IsEl
    | TEl
    | OtherEl

  datatype Token = Open(e: Element) | Close(e: Element) | Chars(s: string)

  datatype Inside = Inside(row: bool, c: bool, v: bool, f: bool, inline: bool, t: bool)
  datatype Row = Row(cells: seq<string>, next: nat)
  datatype Sheet = Sheet(rows: seq<seq<string>>, maxCols: nat, pad: nat, tally: Tally, tooSparse: bool)

  /** A cell's text, the column it is meant for, and how many cells were flushed before it. */
  datatype Placed = Placed(col: nat, text: string, nr: nat)

  /** What a reader counts, not the parser: cells flushed; the widths of all closed rows, of rows left behind
      by a new one, and of rows closed a second time; the cells of the row being read, and of each row when
      it was closed. */
  datatype Account = Account(flushed: nat, closed: nat, lost: nat, again: nat,
                             placed: seq<Placed>, shut: seq<seq<Placed>>)

  datatype Parser = Parser(at: Inside, row: Row, cell: Cell, sheet: Sheet, account: Account)

  function Empties(n: nat): (s: seq<string>)
    ensures |s| == n
  {
    seq(n, _ => "")
  }

  function Gap(cells: seq<string>, col: nat): nat {
    if |cells| < col then col - |cells| else 0
  }

  /** One cell put at the end of a row, behind as many empties as its column needs. */
  function Filled(cells: seq<string>, col: nat): seq<string> {
    cells + Empties(Gap(cells, col))
  }

  function Landed(cells: seq<string>, col: nat, text: string): seq<string> {
    Filled(cells, col) + [text]
  }

  function PlacedCell(wb: Workbook, p: Parser): Placed {
    Placed(p.cell.col, CellText(wb, p.cell), p.account.flushed)
  }

  function Flushed(wb: Workbook, p: Parser): Parser {
    var pad := p.sheet.pad + Gap(p.row.cells, p.cell.col);
    if pad > MAX_PAD then
      p.(row := p.row.(cells := Filled(p.row.cells, p.cell.col)), sheet := p.sheet.(pad := pad, tooSparse := true))
    else
      Parser(p.at,
             Row(Landed(p.row.cells, p.cell.col, CellText(wb, p.cell)), p.cell.col + 1),
             p.cell,
             p.sheet.(pad := pad, tally := Tallied(wb, p.cell, p.sheet.tally)),
             p.account.(flushed := p.account.flushed + 1,
                        placed := p.account.placed + [PlacedCell(wb, p)]))
  }

  predicate RowIsEmpty(r: seq<string>) {
    forall i :: 0 <= i < |r| ==> Blank(r[i])
  }

  function RowCounted(p: Parser): Account {
    var cells, a := p.row.cells, p.account;
    a.(closed := a.closed + |cells|,
       again := if p.at.row then a.again else a.again + |cells|,
       shut := a.shut + [a.placed])
  }

  function RowClosed(p: Parser): Parser {
    var cells := p.row.cells;
    p.(at := p.at.(row := false),
       sheet := p.sheet.(rows := if RowIsEmpty(cells) then p.sheet.rows else p.sheet.rows + [cells],
                         maxCols := if |cells| > p.sheet.maxCols then |cells| else p.sheet.maxCols),
       account := RowCounted(p))
  }

  /** A row that was not closed yet is left behind. */
  function RowBegun(p: Parser): Account {
    p.account.(placed := [], lost := if p.at.row then p.account.lost + |p.row.cells| else p.account.lost)
  }

  function Opened(p: Parser, e: Element): Parser {
    match e
    case RowEl => p.(at := p.at.(row := true), row := Row([], 0), account := RowBegun(p))
    case CellEl(ref, typ, style) =>
      p.(at := p.at.(c := true),
         cell := Cell(if ref != "" then Column(ref) else p.row.next, typ, style,
                      Flags(false, false, false), Texts("", "", "")))
    case VEl => if p.at.c then p.(at := p.at.(v := true), cell := p.cell.(flags := p.cell.flags.(hasV := true))) else p
    case FEl(shared) =>
      if p.at.c then
        p.(at := p.at.(f := true), cell := p.cell.(flags := p.cell.flags.(hasF := true, shared := shared)))
      else p
    case IsEl => if p.at.c then p.(at := p.at.(inline := true)) else p
    case TEl => if p.at.inline then p.(at := p.at.(t := true)) else p
    case OtherEl => p
  }

  function Closed(wb: Workbook, p: Parser, e: Element): Parser {
    match e
    case VEl => p.(at := p.at.(v := false))
    case FEl(_) =>
      if p.cell.flags.hasF && p.cell.flags.shared && p.cell.texts.f == "" then
        p.(at := p.at.(f := false),
           cell := p.cell.(flags := p.cell.flags.(hasF := false)),
           sheet := p.sheet.(tally := p.sheet.tally.(sharedFormula := p.sheet.tally.sharedFormula + 1)))
      else p.(at := p.at.(f := false))
    case IsEl => p.(at := p.at.(inline := false))
    case TEl => p.(at := p.at.(t := false))
    case CellEl(_, _, _) =>
      var q := if p.at.row then Flushed(wb, p) else p;
      if q.sheet.tooSparse then q else q.(at := q.at.(c := false))
    case RowEl => RowClosed(p)
    case OtherEl => p
  }

  function Read(p: Parser, s: string): Parser {
    var t := p.cell.texts;
    if p.at.v then p.(cell := p.cell.(texts := t.(v := t.v + s)))
    else if p.at.f then p.(cell := p.cell.(texts := t.(f := t.f + s)))
    else if p.at.t then p.(cell := p.cell.(texts := t.(inline := t.inline + s)))
    else p
  }

  /** One token; a sheet found too sparse is given up. */
  function Next(wb: Workbook, p: Parser, tok: Token): Parser {
    if p.sheet.tooSparse then p
    else match tok
      case Open(e) => Opened(p, e)
      case Close(e) => Closed(wb, p, e)
      case Chars(s) => Read(p, s)
  }

  function Begin(): Parser {
    Parser(Inside(false, false, false, false, false, false), Row([], 0),
           Cell(0, "", 0, Flags(false, false, false), Texts("", "", "")),
           Sheet([], 0, 0, Tally(0, 0, 0, 0), false), Account(0, 0, 0, 0, [], []))
  }

  function By(wb: Workbook): (Parser, Token) -> Parser {
    (p, tok) => Next(wb, p, tok)
  }

  function After(wb: Workbook, toks: seq<Token>): Parser {
    Fold(By(wb), Begin(), toks)
  }

  // ---------------------------------------------------------------- the parser as a program

  lemma ReplaceNext(front: seq<seq<string>>, rows: seq<seq<string>>, i: nat, r: seq<string>)
    requires |front| == i < |rows|
    ensures (front + rows[i..])[i] == rows[i]
    ensures (front + rows[i..])[i := r] == (front + [r]) + rows[i + 1..]
  {
  }

  function Missing(rows: seq<seq<string>>, cols: nat): nat {
    if rows == [] then 0 else Missing(rows[..|rows| - 1], cols) + Gap(rows[|rows| - 1], cols)
  }

  function Widened(rows: seq<seq<string>>, cols: nat): seq<seq<string>> {
    if rows == [] then [] else Widened(rows[..|rows| - 1], cols) + [Filled(rows[|rows| - 1], cols)]
  }

  lemma {:induction false} MissingGrows(rows: seq<seq<string>>, i: nat, cols: nat)
    requires i <= |rows|
    ensures Missing(rows[..i], cols) <= Missing(rows, cols)
    ensures |Widened(rows, cols)| == |rows|
  {
    if i < |rows| {
      MissingGrows(rows[..|rows| - 1], i, cols);
      assert rows[..|rows| - 1][..i] == rows[..i];
    } else {
      assert rows[..i] == rows;
      if rows != [] {
        MissingGrows(rows[..|rows| - 1], 0, cols);
      }
    }
  }

  lemma MissingNext(rows: seq<seq<string>>, i: nat, cols: nat)
    requires i < |rows|
    ensures Missing(rows[..i + 1], cols) == Missing(rows[..i], cols) + Gap(rows[i], cols)
    ensures Missing(rows[..i + 1], cols) <= Missing(rows, cols)
    ensures Widened(rows[..i + 1], cols) == Widened(rows[..i], cols) + [Filled(rows[i], cols)]
    ensures |Widened(rows[..i], cols)| == i
  {
    assert rows[..i + 1][..i] == rows[..i];
    MissingGrows(rows, i + 1, cols);
    MissingGrows(rows[..i], i, cols);
  }

  class SheetReader {
    const wb: Workbook
    var at: Inside
    var curRow: seq<string>
    var curCol: nat
    var cell: Cell
    var rows: seq<seq<string>>
    var maxCols: nat
    var padCells: nat
    var tally: Tally
    var tooSparse: bool
    ghost var account: Account

    ghost function View(): Parser
      reads this
    {
      Parser(at, Row(curRow, curCol), cell, Sheet(rows, maxCols, padCells, tally, tooSparse), account)
    }

    constructor (wb: Workbook)
      ensures this.wb == wb && View() == Begin()
    {
      this.wb := wb;
      at := Inside(false, false, false, false, false, false);
      curRow, curCol := [], 0;
      cell := Cell(0, "", 0, Flags(false, false, false), Texts("", "", ""));
      rows, maxCols, padCells, tally, tooSparse := [], 0, 0, Tally(0, 0, 0, 0), false;
      account := Account(0, 0, 0, 0, [], []);
    }

    method CellValue() returns (text: string)
      modifies this`tally
      ensures text == CellText(wb, cell) && tally == Tallied(wb, cell, old(tally))
    {
      var raw := cell.texts.v;
      var value := raw;
      if cell.typ == "s" {
        var i := ParseSSTIndex(raw);
        if i.Some? && i.value < |wb.sst| {
          value := wb.sst[i.value];
        } else {
          tally := tally.(sstOverrun := tally.sstOverrun + 1);
          value := "";
        }
      } else if cell.typ == "b" {
        value := if raw == "1" then "TRUE" else if raw == "" then "" else "FALSE";
      } else if cell.typ == "e" || cell.typ == "str" || cell.typ == "d" {
        value := raw;
      } else if cell.typ == "inlineStr" {
        value := cell.texts.inline;
      } else if raw != "" {
        match wb.date(cell.style, raw)
        case Date(iso) => value := iso;
        case AsIs =>
        case UnknownFormat => tally := tally.(unknownFmt := tally.unknownFmt + 1);
      }
      var formula := cell.texts.f;
      if wb.mode == "formula" {
        if cell.flags.hasF && formula != "" {
          return formula;
        }
      } else if wb.mode == "both" {
        if cell.flags.hasF && formula != "" {
          if value != "" {
            return value + " (" + formula + ")";
          }
          return "(" + formula + ")";
        }
      }
      if cell.flags.hasF && !cell.flags.hasV {
        tally := tally.(noCache := tally.noCache + 1);
      }
      return value;
    }

    method PadRow()
      modifies this`curRow, this`padCells
      ensures curRow == Filled(old(curRow), cell.col)
      ensures padCells == old(padCells) + Gap(old(curRow), cell.col)
    {
      ghost var n: nat := 0;
      while |curRow| < cell.col
        invariant n <= Gap(old(curRow), cell.col)
        invariant curRow == old(curRow) + Empties(n)
        invariant padCells == old(padCells) + n
        decreases cell.col - |curRow|
      {
        assert Empties(n) + [""] == Empties(n + 1);
        curRow := curRow + [""];
        padCells := padCells + 1;
        n := n + 1;
      }
    }

    method FlushCell()
      requires !tooSparse
      modifies this
      ensures View() == Flushed(wb, old(View()))
      ensures padCells == old(padCells) + Gap(old(curRow), cell.col) && cell == old(cell)
      ensures tooSparse <==> padCells > 1_048_576
      ensures !tooSparse ==> curCol == cell.col + 1
      ensures !tooSparse ==> curRow == Filled(old(curRow), cell.col) + [CellText(wb, cell)]
    {
      PadRow();
      if padCells > MAX_PAD {
        tooSparse := true;
        return;
      }
      var text := CellValue();
      curRow := curRow + [text];
      curCol := cell.col + 1;
      account := account.(flushed := account.flushed + 1,
                          placed := account.placed + [Placed(cell.col, text, account.flushed)]);
    }

    method Start(e: Element)
      modifies this
      ensures View() == Opened(old(View()), e)
      ensures e.CellEl? ==>
                cell == Cell(if e.ref == "" then old(curCol) else Column(e.ref), e.typ, e.style,
                             Flags(false, false, false), Texts("", "", ""))
      ensures e.RowEl? ==> at == old(at).(row := true) && curRow == [] && curCol == 0
      ensures !e.RowEl? ==> curRow == old(curRow) && curCol == old(curCol)
      ensures e.VEl? || e.FEl? || e.IsEl? ==>
                at == if !old(at).c then old(at) else if e.VEl? then old(at).(v := true)
                      else if e.FEl? then old(at).(f := true) else old(at).(inline := true)
      ensures e.VEl? || e.FEl? ==>
                && cell.col == old(cell).col && cell.texts == old(cell).texts
                && cell.flags == if !old(at).c then old(cell).flags
                                 else if e.VEl? then old(cell).flags.(hasV := true)
                                 else old(cell).flags.(hasF := true, shared := e.shared)
      ensures e.CellEl? ==> at == old(at).(c := true)
      ensures e.TEl? ==> at == if old(at).inline then old(at).(t := true) else old(at)
      ensures e.OtherEl? ==> at == old(at) && cell == old(cell)
      ensures rows == old(rows) && maxCols == old(maxCols) && padCells == old(padCells) && tally == old(tally)
    {
      match e
      case RowEl =>
        account := RowBegun(View());
        at := at.(row := true);
        curRow, curCol := [], 0;
      case CellEl(ref, typ, style) =>
        at := at.(c := true);
        var col := curCol;
        if ref != "" {
          col := ColLettersToIdx(ref);
        }
        cell := Cell(col, typ, style, Flags(false, false, false), Texts("", "", ""));
      case VEl =>
        if at.c {
          at := at.(v := true);
          cell := cell.(flags := cell.flags.(hasV := true));
        }
      case FEl(shared) =>
        if at.c {
          at := at.(f := true);
          cell := cell.(flags := cell.flags.(hasF := true, shared := shared));
        }
      case IsEl =>
        if at.c {
          at := at.(inline := true);
        }
      case TEl =>
        if at.inline {
          at := at.(t := true);
        }
      case OtherEl =>
    }

    method CloseFormula()
      modifies this
      ensures View() == Closed(wb, old(View()), FEl(false))
      ensures at == old(at).(f := false)
      ensures var follower := old(cell).flags.hasF && old(cell).flags.shared && old(cell).texts.f == "";
              && cell == (if follower then old(cell).(flags := old(cell).flags.(hasF := false)) else old(cell))
              && tally.sharedFormula == old(tally).sharedFormula + if follower then 1 else 0
    {
      at := at.(f := false);
      if cell.flags.hasF && cell.flags.shared && cell.texts.f == "" {
        tally := tally.(sharedFormula := tally.sharedFormula + 1);
        cell := cell.(flags := cell.flags.(hasF := false));
      }
    }

    method CloseCell()
      requires !tooSparse
      modifies this
      ensures View() == Closed(wb, old(View()), CellEl("", "", 0))
      ensures !tooSparse ==> at == old(at).(c := false)
      ensures !old(at).row ==> !tooSparse && curRow == old(curRow) && curCol == old(curCol) && padCells == old(padCells)
      ensures old(at).row && !tooSparse ==>
                curRow == Filled(old(curRow), cell.col) + [CellText(wb, cell)] && curCol == cell.col + 1
    {
      if at.row {
        FlushCell();
        if tooSparse {
          return;
        }
      }
      at := at.(c := false);
    }

    method CloseRow()
      modifies this
      ensures View() == RowClosed(old(View()))
      ensures at == old(at).(row := false)
      ensures rows == if forall i :: 0 <= i < |old(curRow)| ==> Blank(old(curRow)[i]) then old(rows)
                      else old(rows) + [old(curRow)]
      ensures maxCols >= |old(curRow)| && maxCols >= old(maxCols) && maxCols in {old(maxCols), |old(curRow)|}
    {
      account := RowCounted(View());
      at := at.(row := false);
      if !RowIsEmpty(curRow) {
        rows := rows + [curRow];
      }
      if |curRow| > maxCols {
        maxCols := |curRow|;
      }
    }

    method End(e: Element) returns (rowClosed: bool)
      requires !tooSparse
      modifies this
      ensures View() == Closed(wb, old(View()), e)
      ensures rowClosed <==> e.RowEl?
      ensures e.VEl? ==> at == old(at).(v := false)
      ensures e.IsEl? ==> at == old(at).(inline := false)
      ensures e.TEl? ==> at == old(at).(t := false)
      ensures e.OtherEl? ==> at == old(at)
      ensures !e.RowEl? ==> rows == old(rows) && maxCols == old(maxCols)
      ensures !e.CellEl? ==> curRow == old(curRow) && curCol == old(curCol) && padCells == old(padCells)
    {
      rowClosed := false;
      match e
      case VEl => at := at.(v := false);
      case FEl(_) => CloseFormula();
      case IsEl => at := at.(inline := false);
      case TEl => at := at.(t := false);
      case CellEl(_, _, _) => CloseCell();
      case RowEl =>
        CloseRow();
        rowClosed := true;
      case OtherEl =>
    }

    method CharData(s: string)
      modifies this`cell
      ensures View() == Read(old(View()), s)
      ensures cell.texts == if at.v then old(cell).texts.(v := old(cell).texts.v + s)
                            else if at.f then old(cell).texts.(f := old(cell).texts.f + s)
                            else if at.t then old(cell).texts.(inline := old(cell).texts.inline + s)
                            else old(cell).texts
      ensures cell == old(cell).(texts := cell.texts)
    {
      var t := cell.texts;
      if at.v {
        cell := cell.(texts := t.(v := t.v + s));
      } else if at.f {
        cell := cell.(texts := t.(f := t.f + s));
      } else if at.t {
        cell := cell.(texts := t.(inline := t.inline + s));
      }
    }

    method PadTo(row: seq<string>) returns (r: seq<string>)
      modifies this`padCells
      ensures r == Filled(row, maxCols) && padCells == old(padCells) + Gap(row, maxCols)
    {
      r := row;
      ghost var n: nat := 0;
      while |r| < maxCols
        invariant n <= Gap(row, maxCols)
        invariant r == row + Empties(n)
        invariant padCells == old(padCells) + n
        decreases maxCols - |r|
      {
        assert Empties(n) + [""] == Empties(n + 1);
        r := r + [""];
        padCells := padCells + 1;
        n := n + 1;
      }
    }

    method Normalise()
      requires !tooSparse
      modifies this`rows, this`padCells, this`tooSparse
      ensures tooSparse <==> old(rows) != [] && old(padCells) + Missing(old(rows), maxCols) > 1_048_576
      ensures !tooSparse ==> rows == Widened(old(rows), maxCols)
      ensures !tooSparse ==> padCells == old(padCells) + Missing(old(rows), maxCols)
    {
      ghost var was := rows;
      for i := 0 to |rows|
        invariant |rows| == |was| && !tooSparse
        invariant rows == Widened(was[..i], maxCols) + was[i..]
        invariant padCells == old(padCells) + Missing(was[..i], maxCols)
        invariant i > 0 ==> padCells <= MAX_PAD
      {
        MissingNext(was, i, maxCols);
        ReplaceNext(Widened(was[..i], maxCols), was, i, []);
        var r := PadTo(rows[i]);
        if padCells > MAX_PAD {
          tooSparse := true;
          return;
        }
        ReplaceNext(Widened(was[..i], maxCols), was, i, r);
        rows := rows[i := r];
      }
      assert was[..|was|] == was;
    }
  }

  // ---------------------------------------------------------------- the result is a rectangle

  predicate WithinWidth(rows: seq<seq<string>>, n: nat) {
    forall i :: 0 <= i < |rows| ==> |rows[i]| <= n
  }

  predicate Rectangular(rows: seq<seq<string>>, n: nat) {
    forall i :: 0 <= i < |rows| ==> |rows[i]| == n
  }

  predicate Sane(s: Sheet) {
    WithinWidth(s.rows, s.maxCols) && (s.tooSparse <==> s.pad > MAX_PAD)
  }

  lemma StepKeepsSane(wb: Workbook, p: Parser, tok: Token)
    requires Sane(p.sheet)
    ensures Sane(Next(wb, p, tok).sheet)
  {
  }

  lemma {:induction false} AlwaysSane(wb: Workbook, toks: seq<Token>)
    ensures Sane(After(wb, toks).sheet)
  {
    if toks != [] {
      AlwaysSane(wb, toks[..|toks| - 1]);
      StepKeepsSane(wb, After(wb, toks[..|toks| - 1]), toks[|toks| - 1]);
    }
  }

  lemma {:induction false} WidenedIsRectangular(rows: seq<seq<string>>, n: nat)
    requires WithinWidth(rows, n)
    ensures |Widened(rows, n)| == |rows| && Rectangular(Widened(rows, n), n)
    ensures forall i :: 0 <= i < |rows| ==> Widened(rows, n)[i] == Filled(rows[i], n)
  {
    if rows != [] {
      WidenedIsRectangular(rows[..|rows| - 1], n);
    }
  }

  // ---------------------------------------------------------------- accounting for every cell

  /** The width of the row being read, as long as it is not closed. */
  function Unclosed(p: Parser): nat {
    if p.at.row then |p.row.cells| else 0
  }

  predicate Balanced(p: Parser) {
    var a := p.account;
    p.sheet.tooSparse || a.closed + a.lost + Unclosed(p) == a.flushed + p.sheet.pad + a.again
  }

  lemma FlushBalances(wb: Workbook, p: Parser)
    requires Balanced(p) && p.at.row && !p.sheet.tooSparse
    ensures Balanced(Flushed(wb, p)) && Flushed(wb, p).at == p.at
  {
    hide CellText, Tallied;
  }

  lemma RowBalances(p: Parser)
    requires Balanced(p) && !p.sheet.tooSparse
    ensures Balanced(RowClosed(p)) && Balanced(Opened(p, RowEl))
  {
    hide RowIsEmpty;
  }

  lemma CloseBalances(wb: Workbook, p: Parser, e: Element)
    requires Balanced(p) && !p.sheet.tooSparse
    ensures Balanced(Closed(wb, p, e))
  {
    hide Flushed, RowClosed;
    RowBalances(p);
    if p.at.row {
      FlushBalances(wb, p);
    }
  }

  lemma OpenBalances(p: Parser, e: Element)
    requires Balanced(p) && !p.sheet.tooSparse
    ensures Balanced(Opened(p, e))
  {
    hide RowBegun, Column;
    RowBalances(p);
  }

  lemma StepBalances(wb: Workbook, p: Parser, tok: Token)
    requires Balanced(p)
    ensures Balanced(Next(wb, p, tok))
  {
    hide Closed, Opened;
    if !p.sheet.tooSparse {
      match tok
      case Open(e) => OpenBalances(p, e);
      case Close(e) => CloseBalances(wb, p, e);
      case Chars(_) =>
    }
  }

  /** Main result, for any stream at all: the widths of the rows closed, left behind or being read are the cells
      flushed plus the gaps filled, a row closed twice counting twice. */
  lemma {:induction false} EveryCellAccounted(wb: Workbook, toks: seq<Token>)
    ensures Balanced(After(wb, toks))
  {
    if toks != [] {
      EveryCellAccounted(wb, toks[..|toks| - 1]);
      StepBalances(wb, After(wb, toks[..|toks| - 1]), toks[|toks| - 1]);
    }
  }

  /** Rows are not nested and not inside cells, cells are not nested (ECMA-376 Part 1, section 18.3.1). */
  predicate Schematic(p: Parser, tok: Token) {
    match tok
    case Open(RowEl) => !p.at.row && !p.at.c
    case Close(RowEl) => p.at.row && !p.at.c
    case Close(CellEl(_, _, _)) => p.at.c
    case _ => true
  }

  predicate SchematicRun(wb: Workbook, toks: seq<Token>) {
    AllAlong(By(wb), Schematic, Begin(), toks)
  }

  predicate LittleGap(p: Parser) {
    && p.account.lost == 0 && p.account.again == 0
    && (p.at.row ==> p.row.next <= |p.row.cells|)
    && (p.at.row && p.at.c ==> p.cell.col < MAX_COLUMNS || p.cell.col <= |p.row.cells|)
  }

  lemma ColumnInFormat(ref: string)
    ensures Column(ref) < MAX_COLUMNS
  {
  }

  lemma FlushKeepsGap(wb: Workbook, p: Parser)
    requires LittleGap(p) && p.at.row && p.at.c
    ensures Flushed(wb, p).at == p.at && LittleGap(Flushed(wb, p))
  {
    hide CellText, Tallied;
  }

  lemma StepKeepsGap(wb: Workbook, p: Parser, tok: Token)
    requires Schematic(p, tok) && LittleGap(p)
    ensures LittleGap(Next(wb, p, tok))
  {
    hide Flushed, RowIsEmpty, Column;
    match tok
    case Close(CellEl(_, _, _)) =>
      if p.at.row {
        FlushKeepsGap(wb, p);
      }
    case Open(CellEl(ref, _, _)) => ColumnInFormat(ref);
    case _ =>
  }

  /** Where rows and cells are not nested, no row is left behind or closed twice, and the next cell fills a gap
      of at most 16383. */
  lemma {:induction false} SchematicIsClean(wb: Workbook, toks: seq<Token>)
    requires SchematicRun(wb, toks)
    ensures var p := After(wb, toks);
            && LittleGap(p)
            && (p.at.row && p.at.c ==> Gap(p.row.cells, p.cell.col) < MAX_COLUMNS)
  {
    if toks != [] {
      SchematicIsClean(wb, toks[..|toks| - 1]);
      StepKeepsGap(wb, After(wb, toks[..|toks| - 1]), toks[|toks| - 1]);
    }
  }

  // ---------------------------------------------------------------- where cells land

  function RowOf(cs: seq<Placed>): seq<string> {
    if cs == [] then []
    else Landed(RowOf(cs[..|cs| - 1]), cs[|cs| - 1].col, cs[|cs| - 1].text)
  }

  /** The column the i-th cell ends up in. */
  function Position(cs: seq<Placed>, i: nat): nat
    requires i < |cs|
  {
    if |RowOf(cs[..i])| < cs[i].col then cs[i].col else |RowOf(cs[..i])|
  }

  lemma StepKeepsRow(wb: Workbook, p: Parser, tok: Token)
    requires p.sheet.tooSparse || p.row.cells == RowOf(p.account.placed)
    ensures var q := Next(wb, p, tok); q.sheet.tooSparse || q.row.cells == RowOf(q.account.placed)
  {
    var c := PlacedCell(wb, p);
    assert (p.account.placed + [c])[..|p.account.placed|] == p.account.placed;
  }

  /** In every stream, the row being read is the row of its cells as referenced. */
  lemma {:induction false} RowIsItsCells(wb: Workbook, toks: seq<Token>)
    ensures var p := After(wb, toks); p.sheet.tooSparse || p.row.cells == RowOf(p.account.placed)
  {
    if toks != [] {
      RowIsItsCells(wb, toks[..|toks| - 1]);
      StepKeepsRow(wb, After(wb, toks[..|toks| - 1]), toks[|toks| - 1]);
    }
  }

  /** The rows kept, of those closed: the ones with some text in them. */
  function Kept(shut: seq<seq<Placed>>): seq<seq<Placed>> {
    if shut == [] then []
    else
      var last := shut[|shut| - 1];
      Kept(shut[..|shut| - 1]) + if RowIsEmpty(RowOf(last)) then [] else [last]
  }

  lemma KeptSnoc(shut: seq<seq<Placed>>, r: seq<Placed>)
    ensures Kept(shut + [r]) == Kept(shut) + if RowIsEmpty(RowOf(r)) then [] else [r]
  {
    assert (shut + [r])[..|shut|] == shut;
  }

  predicate KeptAreTheirCells(p: Parser) {
    var kept := Kept(p.account.shut);
    && |p.sheet.rows| == |kept|
    && forall k :: 0 <= k < |p.sheet.rows| ==> p.sheet.rows[k] == RowOf(kept[k])
  }

  lemma StepKeepsKept(wb: Workbook, p: Parser, tok: Token)
    requires KeptAreTheirCells(p) && (p.sheet.tooSparse || p.row.cells == RowOf(p.account.placed))
    ensures KeptAreTheirCells(Next(wb, p, tok))
  {
    hide CellText, Tallied, RowOf, Kept, RowIsEmpty;
    KeptSnoc(p.account.shut, p.account.placed);
  }

  lemma {:induction false} RowsAreTheirCells(wb: Workbook, toks: seq<Token>)
    ensures KeptAreTheirCells(After(wb, toks))
  {
    if toks != [] {
      RowsAreTheirCells(wb, toks[..|toks| - 1]);
      RowIsItsCells(wb, toks[..|toks| - 1]);
      StepKeepsKept(wb, After(wb, toks[..|toks| - 1]), toks[|toks| - 1]);
    }
  }

  predicate Taken(cs: seq<Placed>, k: nat) {
    exists i :: 0 <= i < |cs| && Position(cs, i) == k
  }

  lemma PositionPrefix(cs: seq<Placed>, i: nat, n: nat)
    requires i < n <= |cs|
    ensures Position(cs[..n], i) == Position(cs, i)
  {
    assert cs[..n][..i] == cs[..i];
  }

  /** Whatever the references, every cell is in the row... */
  lemma {:induction false} CellIsThere(cs: seq<Placed>, i: nat)
    requires i < |cs|
    ensures Position(cs, i) < |RowOf(cs)| && RowOf(cs)[Position(cs, i)] == cs[i].text
  {
    var n := |cs| - 1;
    if i < n {
      CellIsThere(cs[..n], i);
      PositionPrefix(cs, i, n);
    }
  }

  /** ...behind the cells read before it... */
  lemma CellsKeepOrder(cs: seq<Placed>, i: nat)
    requires 0 < i < |cs|
    ensures Position(cs, i - 1) < Position(cs, i)
  {
    CellIsThere(cs[..i], i - 1);
    PositionPrefix(cs, i - 1, i);
  }

  /** ...and all the rest is empty. */
  lemma {:induction false} RestIsEmpty(cs: seq<Placed>, k: nat)
    requires k < |RowOf(cs)| && !Taken(cs, k)
    ensures RowOf(cs)[k] == ""
  {
    var n := |cs| - 1;
    var front := cs[..n];
    assert Position(cs, n) != k;
    if k < |RowOf(front)| {
      if Taken(front, k) {
        var i :| 0 <= i < n && Position(front, i) == k;
        PositionPrefix(cs, i, n);
      }
      RestIsEmpty(front, k);
    }
  }

  predicate AllLand(cs: seq<Placed>) {
    forall i :: 0 <= i < |cs| ==> Position(cs, i) == cs[i].col
  }

  predicate Increasing(cs: seq<Placed>) {
    forall i :: 0 < i < |cs| ==> cs[i - 1].col < cs[i].col
  }

  lemma AllLandSnoc(cs: seq<Placed>)
    requires cs != []
    ensures var n := |cs| - 1; AllLand(cs) <==> AllLand(cs[..n]) && Position(cs, n) == cs[n].col
  {
    var n := |cs| - 1;
    forall i | 0 <= i < n ensures Position(cs[..n], i) == cs[..n][i].col <==> Position(cs, i) == cs[i].col {
      PositionPrefix(cs, i, n);
    }
  }

  lemma RowLength(cs: seq<Placed>)
    ensures |RowOf(cs)| == if cs == [] then 0 else Position(cs, |cs| - 1) + 1
  {
  }

  lemma IncreasingSnoc(cs: seq<Placed>)
    requires cs != []
    ensures var n := |cs| - 1; Increasing(cs) <==> Increasing(cs[..n]) && (n > 0 ==> cs[n - 1].col < cs[n].col)
  {
    var front := cs[..|cs| - 1];
    assert forall i :: 0 <= i < |front| ==> front[i] == cs[i];
  }

  /** Main result: all cells of a row land at their own columns exactly when the references strictly
      increase; one that repeats or steps back lands right behind the cell before it. */
  lemma {:induction false} LandExactlyWhenIncreasing(cs: seq<Placed>)
    ensures AllLand(cs) <==> Increasing(cs)
  {
    if cs != [] {
      var n := |cs| - 1;
      LandExactlyWhenIncreasing(cs[..n]);
      AllLandSnoc(cs);
      IncreasingSnoc(cs);
      RowLength(cs[..n]);
      if n > 0 && AllLand(cs[..n]) {
        assert Position(cs[..n], n - 1) == cs[..n][n - 1].col;
      }
    }
  }

  /** Character data may arrive in any pieces. */
  lemma ReadInPieces(wb: Workbook, p: Parser, a: string, b: string)
    ensures Next(wb, Next(wb, p, Chars(a)), Chars(b)) == Next(wb, p, Chars(a + b))
  {
    var t := p.cell.texts;
    assert (t.v + a) + b == t.v + (a + b);
    assert (t.f + a) + b == t.f + (a + b);
    assert (t.inline + a) + b == t.inline + (a + b);
  }

  // ---------------------------------------------------------------- the parsed sheet

  /** The rows of a parsed sheet, of the cells the stream placed in them. */
  predicate SheetOf(rows: seq<seq<string>>, kept: seq<seq<Placed>>, width: nat) {
    && |rows| == |kept|
    && forall k :: 0 <= k < |rows| ==> rows[k] == Filled(RowOf(kept[k]), width)
  }

  lemma SheetIsItsCells(wb: Workbook, toks: seq<Token>)
    ensures var p := After(wb, toks);
            SheetOf(Widened(p.sheet.rows, p.sheet.maxCols), Kept(p.account.shut), p.sheet.maxCols)
  {
    AlwaysSane(wb, toks);
    RowsAreTheirCells(wb, toks);
    WidenedIsRectangular(After(wb, toks).sheet.rows, After(wb, toks).sheet.maxCols);
  }

  /** In a parsed sheet the i-th cell of the k-th row kept stands at its position, which is its own column where
      the references of that row strictly increase; where no cell stands there is an empty. */
  lemma CellOfTheSheet(rows: seq<seq<string>>, kept: seq<seq<Placed>>, width: nat, k: nat, col: nat)
    requires SheetOf(rows, kept, width) && k < |rows| && col < |rows[k]|
    ensures Taken(kept[k], col) ==>
              exists i :: 0 <= i < |kept[k]| && Position(kept[k], i) == col && rows[k][col] == kept[k][i].text
                          && (Increasing(kept[k]) ==> kept[k][i].col == col)
    ensures !Taken(kept[k], col) ==> rows[k][col] == ""
    ensures forall i :: 0 <= i < |kept[k]| ==>
              Position(kept[k], i) < |rows[k]| && rows[k][Position(kept[k], i)] == kept[k][i].text
  {
    var cs := kept[k];
    forall i | 0 <= i < |cs| ensures Position(cs, i) < |rows[k]| && rows[k][Position(cs, i)] == cs[i].text {
      CellIsThere(cs, i);
    }
    LandExactlyWhenIncreasing(cs);
    if Taken(cs, col) {
      var i :| 0 <= i < |cs| && Position(cs, i) == col;
      assert rows[k][col] == cs[i].text;
    } else if col < |RowOf(cs)| {
      RestIsEmpty(cs, col);
    }
  }

  datatype Outcome = Parsed(rows: seq<seq<string>>, tally: Tally, width: nat, pad: nat) | TooSparse

  lemma NothingMissing(rows: seq<seq<string>>, cols: nat)
    ensures rows == [] ==> Missing(rows, cols) == 0
  {
  }

  lemma {:induction false} GivenUp(wb: Workbook, toks: seq<Token>, i: nat)
    requires i <= |toks| && After(wb, toks[..i]).sheet.tooSparse
    ensures After(wb, toks).sheet.tooSparse
  {
    if i < |toks| {
      assert toks[..|toks| - 1][..i] == toks[..i];
      GivenUp(wb, toks[..|toks| - 1], i);
    } else {
      assert toks[..i] == toks;
    }
  }

  /** parseSheet from the decoded tokens on. Main results, for any stream at all: a parsed sheet is a
      rectangle, its rows are the non-blank rows read with empties to their right, and no more than
      2^20 empties were put in; otherwise the sheet is given up. */
  method ParseSheet(wb: Workbook, toks: seq<Token>) returns (r: Outcome)
    ensures r.Parsed? ==>
              && Rectangular(r.rows, r.width)
              && r.pad <= 1_048_576
              && r.width == After(wb, toks).sheet.maxCols
              && r.rows == Widened(After(wb, toks).sheet.rows, r.width)
              && SheetOf(r.rows, Kept(After(wb, toks).account.shut), r.width)
              && r.pad == After(wb, toks).sheet.pad + Missing(After(wb, toks).sheet.rows, r.width)
              && r.tally == After(wb, toks).sheet.tally
    ensures r.TooSparse? <==>
              var s := After(wb, toks).sheet; s.pad + Missing(s.rows, s.maxCols) > 1_048_576
  {
    var p := new SheetReader(wb);
    assert toks[..0] == [];
    for i := 0 to |toks|
      invariant p.wb == wb && !p.tooSparse && p.View() == After(wb, toks[..i])
    {
      assert toks[..i + 1][..i] == toks[..i];
      match toks[i]
      case Open(e) => p.Start(e);
      case Close(e) =>
        var rowClosed := p.End(e);
        if p.tooSparse {
          GivenUp(wb, toks, i + 1);
          AlwaysSane(wb, toks);
          return TooSparse;
        }
      case Chars(s) => p.CharData(s);
    }
    assert toks[..|toks|] == toks;
    AlwaysSane(wb, toks);
    SheetIsItsCells(wb, toks);
    NothingMissing(p.rows, p.maxCols);
    WidenedIsRectangular(p.rows, p.maxCols);
    p.Normalise();
    if p.tooSparse {
      return TooSparse;
    }
    r := Parsed(p.rows, p.tally, p.maxCols, p.padCells);
  }
}
