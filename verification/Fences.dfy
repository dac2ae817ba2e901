/**
Fenced blocks (GFM section 4.5): a fence longer than any backtick run of its content
(internal/fileconvert/gfm.go), written around wide tables and code paragraphs, read back by an
independent reader.
*/
module Fences {
  import opened TextLines
  import opened Options

  function Ticks(n: nat): (t: string)
    ensures |t| == n
  {
    seq(n, _ => '`')
  }

  /** `n` backticks stand in `s` from `p` on. */
  predicate TicksAt(s: string, p: nat, n: nat) {
    p + n <= |s| && forall i :: p <= i < p + n ==> s[i] == '`'
  }

  /** `n` backticks in a row stand somewhere in `s`. */
  predicate HasTicks(s: string, n: nat) {
    exists p: nat :: p + n <= |s| && TicksAt(s, p, n)
  }

  predicate NoRunBefore(s: string, end: nat, n: nat) {
    forall p: nat :: p + n <= end ==> !TicksAt(s, p, n)
  }

  /** Seeing one more character: a run that ends there is at most the trailing one. */
  lemma NoRunStep(s: string, end: nat, run: nat, n: nat, m: nat)
    requires end < |s| && run <= end + 1 && NoRunBefore(s, end, n)
    requires run == end + 1 || s[end - run] != '`'
    requires run < m && n <= m
    ensures NoRunBefore(s, end + 1, m)
  {
    forall p: nat {:trigger TicksAt(s, p, m)} | p + m <= end + 1 ensures !TicksAt(s, p, m) {
      if p + m <= end {
        assert !TicksAt(s, p, n);
      }
    }
  }

  /** The shortest fence of at least three backticks that the content does not hold. */
  method GfmFence(content: string) returns (fence: string)
    ensures |fence| >= 3 && fence == Ticks(|fence|)
    ensures !HasTicks(content, |fence|)
    ensures |fence| > 3 ==> HasTicks(content, |fence| - 1)
  {
    var longest, run := 0, 0;
    ghost var at: nat := 0;
    for i := 0 to |content|
      invariant 0 <= run <= longest <= i && run <= i
      invariant TicksAt(content, i - run, run)
      invariant run == i || content[i - run - 1] != '`'
      invariant at + longest <= i && TicksAt(content, at, longest)
      invariant NoRunBefore(content, i, longest + 1)
    {
      ghost var before := longest;
      if content[i] == '`' {
        run := run + 1;
        if run > longest {
          longest := run;
          at := i + 1 - run;
        }
      } else {
        run := 0;
      }
      NoRunStep(content, i, run, before + 1, longest + 1);
    }
    fence := Ticks(if longest + 1 > 3 then longest + 1 else 3);
    if HasTicks(content, |fence|) {
      var p: nat :| p + |fence| <= |content| && TicksAt(content, p, |fence|);
      assert TicksAt(content, p, longest + 1);
    }
  }

  // ---------------------------------------------------------------- what is written

  /** Content with its last line terminated. */
  function Ended(content: string): (e: string)
    ensures content <= e && |e| > 0 && e[|e| - 1] == '\n'
    ensures |e| == |content| || (|e| == |content| + 1 && (content == "" || content[|content| - 1] != '\n'))
  {
    if content != [] && content[|content| - 1] == '\n' then content else content + ['\n']
  }

  function FencedText(fence: string, info: string, content: string): string {
    ((fence + info) + ['\n']) + (Ended(content) + (fence + ['\n']))
  }

  lemma WrittenInPieces(bw: string, f: string, raw: string)
    ensures bw + (FencedText(f, "", raw) + ['\n']) ==
            ((bw + (f + ['\n'])) + Ended(raw)) + (f + ['\n', '\n'])
    ensures (bw + (f + ['\n'])) + (raw + ['\n']) == ((bw + (f + ['\n'])) + raw) + ['\n']
  {
    assert f + "" == f;
    assert (f + ['\n']) + ['\n'] == f + ['\n', '\n'];
  }

  // ---------------------------------------------------------------- what a reader sees

  datatype Block = Block(info: string, payload: string, rest: seq<string>)

  function TicksAhead(line: string): (n: nat)
    ensures n <= |line|
  {
    if line == [] || line[0] != '`' then 0 else 1 + TicksAhead(line[1..])
  }

  function SpacesAhead(line: string): (n: nat)
    ensures n <= |line|
  {
    if line == [] || line[0] != ' ' then 0 else 1 + SpacesAhead(line[1..])
  }

  /** A closing fence: up to three spaces, at least `n` backticks, then nothing but blanks. */
  predicate Closes(line: string, n: nat) {
    var indent := SpacesAhead(line);
    var ticks := TicksAhead(line[indent..]);
    indent <= 3 && ticks >= n && forall i :: indent + ticks <= i < |line| ==> line[i] == ' ' || line[i] == '\t'
  }

  /** Index of the first closing fence, or the number of lines. */
  function ClosingLine(lines: seq<string>, n: nat): (k: nat)
    ensures k <= |lines|
  {
    if lines == [] || Closes(lines[0], n) then 0 else 1 + ClosingLine(lines[1..], n)
  }

  /** Reads the block that opens on the first line of `text`, and the lines after it. */
  function ReadFence(text: string): Option<Block> {
    var lines := Lines('\n', text);
    if lines == [] then None
    else
      var n := TicksAhead(lines[0]);
      var info := lines[0][n..];
      if n < 3 || '`' in info then None
      else
        var body := lines[1..];
        var k := ClosingLine(body, n);
        Some(Block(info, Joined('\n', body[..k]), if k < |body| then body[k + 1..] else []))
  }

  // ---------------------------------------------------------------- reading back

  lemma {:induction false} TicksAheadOf(n: nat, tail: string)
    requires tail == [] || tail[0] != '`'
    ensures TicksAhead(Ticks(n) + tail) == n
  {
    if n == 0 {
      assert Ticks(n) + tail == tail;
    } else {
      TicksAheadOf(n - 1, tail);
      assert (Ticks(n) + tail)[1..] == Ticks(n - 1) + tail;
    }
  }

  lemma {:induction false} TicksAheadAre(line: string)
    ensures TicksAt(line, 0, TicksAhead(line))
  {
    if line != [] && line[0] == '`' {
      TicksAheadAre(line[1..]);
      var n := TicksAhead(line[1..]);
      forall i | 0 <= i < n + 1 ensures line[i] == '`' {
        if i > 0 {
          assert line[i] == line[1..][i - 1];
        }
      }
    }
  }

  lemma FenceCloses(n: nat)
    requires n >= 3
    ensures Closes(Ticks(n), n)
  {
    TicksAheadOf(n, "");
    assert Ticks(n) + "" == Ticks(n);
    assert SpacesAhead(Ticks(n)) == 0;
    assert Ticks(n)[0..] == Ticks(n);
  }

  lemma ClosingHasTicks(line: string, n: nat)
    requires Closes(line, n)
    ensures HasTicks(line, n)
  {
    var indent := SpacesAhead(line);
    var tail := line[indent..];
    TicksAheadAre(tail);
    forall i | indent <= i < indent + n ensures line[i] == '`' {
      assert line[i] == tail[i - indent];
    }
    assert TicksAt(line, indent, n);
  }

  lemma TicksCarryOver(s: string, t: string, p: nat, n: nat, d: nat)
    requires TicksAt(s, p, n)
    requires d + |s| <= |t| && t[d..d + |s|] == s
    ensures HasTicks(t, n)
  {
    forall i | d + p <= i < d + p + n ensures t[i] == '`' {
      assert t[i] == t[d..d + |s|][i - d];
    }
    assert TicksAt(t, d + p, n);
  }

  lemma {:induction false} PartialIsTheEnd(s: string)
    ensures |Partial('\n', s)| <= |s|
    ensures s[|s| - |Partial('\n', s)|..] == Partial('\n', s)
  {
    if s != [] && s[|s| - 1] != '\n' {
      PartialIsTheEnd(s[..|s| - 1]);
    }
  }

  /** Backticks in a line of `s` are backticks in `s`. */
  lemma {:induction false} TicksInALine(s: string, i: nat, n: nat)
    requires i < |Lines('\n', s)| && HasTicks(Lines('\n', s)[i], n)
    ensures HasTicks(s, n)
  {
    var front := s[..|s| - 1];
    if i < |Lines('\n', front)| {
      TicksInALine(front, i, n);
      var p: nat :| p + n <= |front| && TicksAt(front, p, n);
      TicksCarryOver(front, s, p, n, 0);
    } else {
      var line := Partial('\n', front);
      PartialIsTheEnd(front);
      var p: nat :| p + n <= |line| && TicksAt(line, p, n);
      assert s[|front| - |line|..|front|] == line;
      TicksCarryOver(line, s, p, n, |front| - |line|);
    }
  }

  lemma EndedAddsNoTicks(content: string, n: nat)
    requires n > 0 && HasTicks(Ended(content), n)
    ensures HasTicks(content, n)
  {
    var p: nat :| p + n <= |Ended(content)| && TicksAt(Ended(content), p, n);
    assert Ended(content)[p + n - 1] == '`';
    forall i | p <= i < p + n ensures i < |content| && content[i] == '`' {
      assert Ended(content)[i] == '`';
    }
    assert TicksAt(content, p, n);
  }

  lemma {:induction false} ClosingLineIs(before: seq<string>, fence: string, after: seq<string>, n: nat)
    requires forall i :: 0 <= i < |before| ==> !Closes(before[i], n)
    requires Closes(fence, n)
    ensures ClosingLine(before + ([fence] + after), n) == |before|
  {
    var lines := before + ([fence] + after);
    if before == [] {
      assert lines == [fence] + after;
    } else {
      ClosingLineIs(before[1..], fence, after, n);
      assert lines[1..] == before[1..] + ([fence] + after);
    }
  }

  lemma EndedIsComplete(content: string)
    ensures Partial('\n', Ended(content)) == ""
  {
  }

  /** The lines of a fenced block with anything after it. */
  lemma LinesOfBlock(open: string, content: string, fence: string, after: string)
    requires '\n' !in open && '\n' !in fence
    ensures Lines('\n', ((open + ['\n']) + (Ended(content) + (fence + ['\n']))) + after) ==
            [open] + (Lines('\n', Ended(content)) + ([fence] + Lines('\n', after)))
  {
    var body := Ended(content);
    var close := (fence + ['\n']) + after;
    LineFirst('\n', fence, after);
    EndedIsComplete(content);
    LinesConcat('\n', body, close);
    assert [] + close == close;
    LineFirst('\n', open, body + close);
    Associates(body, fence + ['\n'], after);
    Associates(open + ['\n'], body + (fence + ['\n']), after);
  }

  lemma NoLineCloses(content: string, n: nat)
    requires n > 0 && !HasTicks(content, n)
    ensures forall i :: 0 <= i < |Lines('\n', Ended(content))| ==> !Closes(Lines('\n', Ended(content))[i], n)
  {
    var body := Ended(content);
    forall i | 0 <= i < |Lines('\n', body)| ensures !Closes(Lines('\n', body)[i], n) {
      if Closes(Lines('\n', body)[i], n) {
        ClosingHasTicks(Lines('\n', body)[i], n);
        TicksInALine(body, i, n);
        EndedAddsNoTicks(content, n);
      }
    }
  }

  lemma OpeningRead(n: nat, info: string)
    ensures '`' !in info ==> TicksAhead(Ticks(n) + info) == n
    ensures (Ticks(n) + info)[n..] == info
  {
    if '`' !in info {
      TicksAheadOf(n, info);
    }
  }

  lemma BodyRead(content: string, n: nat, rest: seq<string>)
    requires n >= 3 && !HasTicks(content, n)
    ensures var body := Lines('\n', Ended(content)) + ([Ticks(n)] + rest);
            var k := ClosingLine(body, n);
            k < |body| && Joined('\n', body[..k]) == Ended(content) && body[k + 1..] == rest
  {
    var lines := Lines('\n', Ended(content));
    NoLineCloses(content, n);
    FenceCloses(n);
    ClosingLineIs(lines, Ticks(n), rest, n);
    assert (lines + ([Ticks(n)] + rest))[..|lines|] == lines;
    EndedIsComplete(content);
    SplitAndJoin('\n', Ended(content));
    assert Joined('\n', lines) + "" == Joined('\n', lines);
  }

  lemma TicksAreOneLine(n: nat, info: string)
    requires '\n' !in info
    ensures '\n' !in Ticks(n) && '\n' !in Ticks(n) + info
  {
  }

  /** Main result: a block written with the fence computed for its content reads back, whatever the
      content holds and whatever text follows. */
  lemma FenceReadsBack(n: nat, info: string, content: string, after: string)
    requires n >= 3 && !HasTicks(content, n)
    requires '`' !in info && '\n' !in info
    ensures ReadFence(FencedText(Ticks(n), info, content) + after) ==
            Some(Block(info, Ended(content), Lines('\n', after)))
  {
    var open, rest := Ticks(n) + info, Lines('\n', after);
    TicksAreOneLine(n, info);
    LinesOfBlock(open, content, Ticks(n), after);
    OpeningRead(n, info);
    BodyRead(content, n, rest);
    var body := Lines('\n', Ended(content)) + ([Ticks(n)] + rest);
    assert ([open] + body)[1..] == body;
  }

  // ---------------------------------------------------------------- the two writers

  /** `b` is the content fenced by some run of backticks the content does not hold. */
  ghost predicate IsFenced(b: string, info: string, content: string) {
    exists n: nat :: n >= 3 && !HasTicks(content, n) && b == FencedText(Ticks(n), info, content)
  }

  /** Whatever follows it, the block reads back. */
  ghost predicate ReadsAs(b: string, info: string, content: string) {
    forall after: string :: ReadFence(b + after) == Some(Block(info, Ended(content), Lines('\n', after)))
  }

  lemma FencedReads(b: string, info: string, content: string)
    requires IsFenced(b, info, content) && '`' !in info && '\n' !in info
    ensures ReadsAs(b, info, content)
  {
    var n: nat :| n >= 3 && !HasTicks(content, n) && b == FencedText(Ticks(n), info, content);
    forall after: string
      ensures ReadFence(b + after) == Some(Block(info, Ended(content), Lines('\n', after)))
    {
      FenceReadsBack(n, info, content, after);
    }
  }

  /** renderCSVBlock, from the CSV text on. */
  method RenderCsvBlock(csv: string) returns (b: string)
    ensures IsFenced(b, "csv", csv) && ReadsAs(b, "csv", csv)
  {
    var fence := GfmFence(csv);
    b := (fence + "csv") + ['\n'];
    var body := csv;
    if !(csv != [] && csv[|csv| - 1] == '\n') {
      body := body + ['\n'];
    }
    b := b + (body + (fence + ['\n']));
    assert b == FencedText(Ticks(|fence|), "csv", csv);
    FencedReads(b, "csv", csv);
  }

  /** The fenced branch of emitBodyParagraph, from the flattened paragraph on. */
  method EmitCode(bw: string, raw: string) returns (bw': string)
    ensures exists block :: IsFenced(block, "", raw) && ReadsAs(block, "", raw) && bw' == bw + (block + ['\n'])
  {
    var fence := GfmFence(raw);
    ghost var block := FencedText(Ticks(|fence|), "", raw);
    bw' := bw + (fence + ['\n']);
    bw' := bw' + raw;
    if !(raw != [] && raw[|raw| - 1] == '\n') {
      bw' := bw' + ['\n'];
    }
    bw' := bw' + (fence + ['\n', '\n']);
    WrittenInPieces(bw, fence, raw);
    assert IsFenced(block, "", raw);
    FencedReads(block, "", raw);
  }

  /** A fence no longer than a run of the content can be closed by it: one backtick fewer and the
      block ends early on some content. */
  lemma ShorterFenceBreaks(n: nat)
    requires n >= 3
    ensures var content := Ticks(n);
            && HasTicks(content, n)
            && ReadFence(FencedText(Ticks(n), "", content)) != Some(Block("", Ended(content), []))
  {
    var t, body := Ticks(n), Ended(Ticks(n));
    assert t[n - 1] == '`';
    assert TicksAt(t, 0, n);
    LinesOfBlock(t + "", t, t, "");
    assert t + "" == t;
    assert FencedText(t, "", t) + "" == FencedText(t, "", t);
    LineFirst('\n', t, "");
    assert (t + ['\n']) + "" == body;
    TicksAheadOf(n, "");
    FenceCloses(n);
    var lines := [t] + ([t] + ([t] + []));
    assert Lines('\n', FencedText(t, "", t)) == lines;
    assert lines[1..] == [t] + ([t] + []);
    assert lines[1..][..0] == [];
    assert t[n..] == "";
  }
}
