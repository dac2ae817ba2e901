/**
Line breaks in code paragraphs: runs of one format coalesce as they are collected
(internal/fileconvert/convert_docx.go), and a segment that reads exactly `<br>` is turned back into a
newline when a code paragraph is flattened (internal/fileconvert/convert_docx_emit.go).
*/
module CodeParagraphs {
  import TextLines

  datatype Format = Format(bold: bool, italic: bool, strike: bool, code: bool, link: string)

  const PLAIN := Format(false, false, false, false, "")

  datatype Segment = Segment(text: string, format: Format)

  /** What a paragraph is made of: text of a format, or a line break, which is collected as the
      unformatted text `<br>`. */
  datatype Piece = Text(text: string, format: Format) | Break {
    function Written(): Segment {
      match this
      case Text(t, f) => Segment(t, f)
      case Break => Segment("<br>", PLAIN)
    }

    /** What the piece stands for. */
    function Meant(): string {
      match this
      case Text(t, _) => t
      case Break => ['\n']
    }
  }

  function Appended(segs: seq<Segment>, s: Segment): seq<Segment> {
    if s.text == "" then segs
    else if segs != [] && segs[|segs| - 1].format == s.format then
      segs[|segs| - 1 := Segment(segs[|segs| - 1].text + s.text, s.format)]
    else segs + [s]
  }

  function Shown(text: string): string {
    if text == "<br>" then ['\n'] else text
  }

  function Plain(segs: seq<Segment>): string {
    if segs == [] then "" else Shown(segs[0].text) + Plain(segs[1..])
  }

  class Paragraph {
    var segs: seq<Segment>

    constructor ()
      ensures segs == []
    {
      segs := [];
    }

    method AppendSeg(s: Segment)
      modifies this
      ensures segs == Appended(old(segs), s)
      ensures s.text == "" ==> segs == old(segs)
      ensures s.text != "" && old(segs) != [] && old(segs)[|old(segs)| - 1].format == s.format ==>
                var n := |old(segs)| - 1;
                segs == old(segs)[..n] + [Segment(old(segs)[n].text + s.text, s.format)]
      ensures s.text != "" && (old(segs) == [] || old(segs)[|old(segs)| - 1].format != s.format) ==>
                segs == old(segs) + [s]
    {
      if s.text == "" {
        return;
      }
      var n := |segs|;
      if n > 0 {
        var last := segs[n - 1];
        if last.format == s.format {
          segs := segs[n - 1 := last.(text := last.text + s.text)];
          return;
        }
      }
      segs := segs + [s];
    }

    method PlainSegments() returns (b: string)
      ensures b == Plain(segs)
    {
      b := "";
      for i := 0 to |segs|
        invariant b + Plain(segs[i..]) == Plain(segs)
      {
        var s := segs[i];
        assert segs[i..][0] == s && segs[i..][1..] == segs[i + 1..];
        if s.text == "<br>" {
          b := b + ['\n'];
        } else {
          b := b + s.text;
        }
      }
      assert b + "" == b;
    }
  }

  function Collected(pieces: seq<Piece>): seq<Segment> {
    if pieces == [] then []
    else Appended(Collected(pieces[..|pieces| - 1]), pieces[|pieces| - 1].Written())
  }

  /** What the code paragraph should read. */
  function Meaning(pieces: seq<Piece>): string {
    if pieces == [] then "" else pieces[0].Meant() + Meaning(pieces[1..])
  }

  // ---------------------------------------------------------------- stretches of one format

  predicate Joins(before: seq<seq<Piece>>, p: Piece) {
    before != [] && before[|before| - 1] != [] && before[|before| - 1][0].Written().format == p.Written().format
  }

  function Extended(before: seq<seq<Piece>>, p: Piece): seq<seq<Piece>> {
    if p.Written().text == "" then before
    else if Joins(before, p) then before[|before| - 1 := before[|before| - 1] + [p]]
    else before + [[p]]
  }

  /** The non-empty pieces, cut wherever the format changes. */
  function Stretches(pieces: seq<Piece>): seq<seq<Piece>> {
    if pieces == [] then [] else Extended(Stretches(pieces[..|pieces| - 1]), pieces[|pieces| - 1])
  }

  function Literal(stretch: seq<Piece>): string {
    if stretch == [] then "" else stretch[0].Written().text + Literal(stretch[1..])
  }

  /** A break stands alone in its stretch, and no text spells out `<br>`. */
  predicate Kept(stretch: seq<Piece>) {
    stretch == [Break] || (Break !in stretch && Literal(stretch) != "<br>")
  }

  predicate AllKept(stretches: seq<seq<Piece>>) {
    forall i :: 0 <= i < |stretches| ==> Kept(stretches[i])
  }

  predicate NonEmpty(stretch: seq<Piece>) {
    stretch != [] && forall i :: 0 <= i < |stretch| ==> stretch[i].Written().text != ""
  }

  predicate AllNonEmpty(stretches: seq<seq<Piece>>) {
    forall i :: 0 <= i < |stretches| ==> NonEmpty(stretches[i])
  }

  function One(stretch: seq<Piece>): Segment
    requires stretch != []
  {
    Segment(Literal(stretch), stretch[0].Written().format)
  }

  function Merged(stretches: seq<seq<Piece>>): seq<Segment>
    requires AllNonEmpty(stretches)
  {
    seq(|stretches|, i requires 0 <= i < |stretches| => One(stretches[i]))
  }

  function Flat(stretches: seq<seq<Piece>>): string {
    if stretches == [] then "" else Meaning(stretches[0]) + Flat(stretches[1..])
  }

  lemma {:induction false} LiteralSnoc(s: seq<Piece>, p: Piece)
    ensures Literal(s + [p]) == Literal(s) + p.Written().text
  {
    if s == [] {
      assert ([] + [p])[1..] == [];
    } else {
      LiteralSnoc(s[1..], p);
      assert (s + [p])[1..] == s[1..] + [p];
      TextLines.Associates(s[0].Written().text, Literal(s[1..]), p.Written().text);
    }
  }

  lemma {:induction false} MeaningSnoc(s: seq<Piece>, p: Piece)
    ensures Meaning(s + [p]) == Meaning(s) + p.Meant()
  {
    if s == [] {
      assert ([] + [p])[1..] == [];
    } else {
      MeaningSnoc(s[1..], p);
      assert (s + [p])[1..] == s[1..] + [p];
      TextLines.Associates(s[0].Meant(), Meaning(s[1..]), p.Meant());
    }
  }

  lemma {:induction false} FlatSnoc(stretches: seq<seq<Piece>>, x: seq<Piece>)
    ensures Flat(stretches + [x]) == Flat(stretches) + Meaning(x)
  {
    if stretches == [] {
      assert (stretches + [x])[1..] == [];
    } else {
      FlatSnoc(stretches[1..], x);
      assert (stretches + [x])[1..] == stretches[1..] + [x];
      TextLines.Associates(Meaning(stretches[0]), Flat(stretches[1..]), Meaning(x));
    }
  }

  lemma MergedSnoc(stretches: seq<seq<Piece>>, x: seq<Piece>)
    requires AllNonEmpty(stretches) && NonEmpty(x)
    ensures AllNonEmpty(stretches + [x])
    ensures Merged(stretches + [x]) == Merged(stretches) + [One(x)]
  {
  }

  lemma SameFormat(before: seq<seq<Piece>>, p: Piece)
    requires AllNonEmpty(before) && p.Written().text != ""
    ensures Joins(before, p) <==>
            Merged(before) != [] && Merged(before)[|before| - 1].format == p.Written().format
  {
  }

  lemma LongerStretch(before: seq<seq<Piece>>, last: seq<Piece>, p: Piece)
    requires AllNonEmpty(before) && NonEmpty(last) && p.Written().text != ""
    ensures AllNonEmpty(before + [last]) && AllNonEmpty(before + [last + [p]])
    ensures Merged(before + [last + [p]]) == Merged(before + [last])[
              |before| := Segment(Literal(last) + p.Written().text, last[0].Written().format)]
    ensures Flat(before + [last + [p]]) == Flat(before + [last]) + p.Meant()
  {
    LiteralSnoc(last, p);
    MeaningSnoc(last, p);
    MergedSnoc(before, last);
    MergedSnoc(before, last + [p]);
    FlatSnoc(before, last);
    FlatSnoc(before, last + [p]);
    TextLines.Associates(Flat(before), Meaning(last), p.Meant());
  }

  lemma JoinStep(before: seq<seq<Piece>>, p: Piece)
    requires AllNonEmpty(before) && p.Written().text != "" && Joins(before, p)
    ensures AllNonEmpty(Extended(before, p))
    ensures Merged(Extended(before, p)) == Appended(Merged(before), p.Written())
    ensures Flat(Extended(before, p)) == Flat(before) + p.Meant()
  {
    var k := |before| - 1;
    var front, last := before[..k], before[k];
    assert NonEmpty(last);
    LongerStretch(front, last, p);
    assert before == front + [last];
    assert Extended(before, p) == front + [last + [p]];
    SameFormat(before, p);
  }

  lemma OnePiece(p: Piece)
    ensures One([p]) == p.Written() && Meaning([p]) == p.Meant()
  {
    LiteralSnoc([], p);
    MeaningSnoc([], p);
    assert [] + [p] == [p];
  }

  lemma NewStretch(before: seq<seq<Piece>>, p: Piece)
    requires AllNonEmpty(before) && p.Written().text != ""
    ensures AllNonEmpty(before + [[p]])
    ensures Merged(before + [[p]]) == Merged(before) + [p.Written()]
    ensures Flat(before + [[p]]) == Flat(before) + p.Meant()
  {
    OnePiece(p);
    MergedSnoc(before, [p]);
    FlatSnoc(before, [p]);
  }

  lemma StretchStep(before: seq<seq<Piece>>, p: Piece)
    requires AllNonEmpty(before)
    ensures AllNonEmpty(Extended(before, p))
    ensures Merged(Extended(before, p)) == Appended(Merged(before), p.Written())
    ensures Flat(Extended(before, p)) == Flat(before) + p.Meant()
  {
    if p.Written().text != "" {
      if Joins(before, p) {
        JoinStep(before, p);
      } else {
        SameFormat(before, p);
        NewStretch(before, p);
      }
    }
  }

  /** The segments collected are the stretches, each merged into one; no meaning is lost by cutting. */
  lemma {:induction false} CollectedAreStretches(pieces: seq<Piece>)
    ensures AllNonEmpty(Stretches(pieces))
    ensures Collected(pieces) == Merged(Stretches(pieces))
    ensures Flat(Stretches(pieces)) == Meaning(pieces)
  {
    if pieces != [] {
      var n := |pieces| - 1;
      CollectedAreStretches(pieces[..n]);
      assert pieces == pieces[..n] + [pieces[n]];
      MeaningSnoc(pieces[..n], pieces[n]);
      StretchStep(Stretches(pieces[..n]), pieces[n]);
    }
  }

  // ---------------------------------------------------------------- the exact condition

  lemma {:induction false} KeptMeansShown(stretch: seq<Piece>)
    requires Break !in stretch
    ensures Literal(stretch) == Meaning(stretch)
  {
    if stretch != [] {
      KeptMeansShown(stretch[1..]);
    }
  }

  lemma KeptReads(stretch: seq<Piece>)
    requires Kept(stretch)
    ensures Shown(Literal(stretch)) == Meaning(stretch)
  {
    if stretch == [Break] {
      assert Literal([Break][1..]) == "" && Meaning([Break][1..]) == "";
      assert Literal([Break]) == "<br>" + "";
      assert Meaning([Break]) == ['\n'] + "";
    } else {
      KeptMeansShown(stretch);
    }
  }

  /** A stretch with a break shows `<` where a newline is meant. */
  lemma {:induction false} BreakDiverges(stretch: seq<Piece>, x: string, y: string)
    requires Break in stretch
    ensures Literal(stretch) + x != Meaning(stretch) + y
  {
    var p, rest := stretch[0], stretch[1..];
    var l, m := p.Written().text, p.Meant();
    if p == Break {
      assert (Literal(stretch) + x)[0] == '<';
      assert (Meaning(stretch) + y)[0] == '\n';
    } else {
      BreakDiverges(rest, x, y);
      assert Literal(stretch) + x == l + (Literal(rest) + x);
      assert Meaning(stretch) + y == l + (Meaning(rest) + y);
      assert (l + (Literal(rest) + x))[|l|..] == Literal(rest) + x;
      assert (l + (Meaning(rest) + y))[|l|..] == Meaning(rest) + y;
    }
  }

  lemma {:induction false} LongWithBreak(stretch: seq<Piece>)
    requires NonEmpty(stretch) && Break in stretch
    ensures |Literal(stretch)| >= 4
    ensures stretch == [Break] || |Literal(stretch)| > 4
  {
    if |stretch| == 1 {
      assert stretch == [stretch[0]];
    } else {
      var rest := stretch[1..];
      assert NonEmpty(rest);
      if Break in rest {
        LongWithBreak(rest);
        assert stretch[0].Written().text != "";
      } else {
        assert stretch[0] == Break;
        assert rest[0].Written().text != "";
      }
    }
  }

  lemma LostDiverges(stretch: seq<Piece>, x: string, y: string)
    requires NonEmpty(stretch) && !Kept(stretch)
    ensures Shown(Literal(stretch)) + x != Meaning(stretch) + y
  {
    if Break in stretch {
      LongWithBreak(stretch);
      BreakDiverges(stretch, x, y);
    } else {
      KeptMeansShown(stretch);
      assert (Shown(Literal(stretch)) + x)[0] == '\n';
      assert (Meaning(stretch) + y)[0] == '<';
    }
  }

  lemma AllKeptFront(stretches: seq<seq<Piece>>)
    requires stretches != []
    ensures AllKept(stretches) <==> Kept(stretches[0]) && AllKept(stretches[1..])
  {
    var rest := stretches[1..];
    assert stretches == [stretches[0]] + rest;
    if AllKept(stretches) {
      forall i | 0 <= i < |rest| ensures Kept(rest[i]) {
        assert Kept(stretches[i + 1]);
      }
    }
  }

  lemma {:induction false} ReadsExactlyWhenKept(stretches: seq<seq<Piece>>)
    requires AllNonEmpty(stretches)
    ensures Plain(Merged(stretches)) == Flat(stretches) <==> AllKept(stretches)
  {
    if stretches != [] {
      var first, rest := stretches[0], stretches[1..];
      ReadsExactlyWhenKept(rest);
      assert Merged(stretches)[1..] == Merged(rest);
      AllKeptFront(stretches);
      var shown, x, y := Shown(Literal(first)), Plain(Merged(rest)), Flat(rest);
      if Kept(first) {
        KeptReads(first);
        assert (shown + x)[|shown|..] == x && (shown + y)[|shown|..] == y;
      } else {
        assert NonEmpty(first);
        LostDiverges(first, x, y);
      }
    }
  }

  /** Main result: a flattened code paragraph reads as meant exactly when every line break is alone
      among its same-format neighbours and no such stretch of text spells `<br>`. */
  lemma CodeReadsExactlyWhen(pieces: seq<Piece>)
    ensures Plain(Collected(pieces)) == Meaning(pieces) <==> AllKept(Stretches(pieces))
  {
    CollectedAreStretches(pieces);
    ReadsExactlyWhenKept(Stretches(pieces));
  }

  lemma StretchesSnoc(pieces: seq<Piece>, p: Piece)
    ensures Stretches(pieces + [p]) == Extended(Stretches(pieces), p)
  {
    assert (pieces + [p])[..|pieces|] == pieces;
  }

  /** Two unformatted code lines with a soft break between them lose it. */
  lemma BreakBetweenPlainRunsIsLost(a: string, b: string)
    requires a != "" || b != ""
    ensures var pieces := [Text(a, PLAIN), Break] + [Text(b, PLAIN)];
            Plain(Collected(pieces)) != Meaning(pieces)
  {
    var first, last := Text(a, PLAIN), Text(b, PLAIN);
    StretchesSnoc([], first);
    StretchesSnoc([first], Break);
    StretchesSnoc([first, Break], last);
    assert [] + [first] == [first] && [first] + [Break] == [first, Break];
    var all := Stretches([first, Break] + [last]);
    assert |all| == 1 && Break in all[0] && |all[0]| > 1;
    assert !Kept(all[0]);
    CodeReadsExactlyWhen([first, Break] + [last]);
  }
}
