/**
The bounded line reader (internal/linereader) over a buffered reader, and the rune-safe Truncate it
uses (internal/strutil). The source is the bytes still to come and how they end.
*/
module LineReader {
  import opened ByteText

  const ELLIPSIS: Bytes := [46, 46, 46]

  // ---------------------------------------------------------------- Truncate

  /** utf8.RuneStart: everything but a continuation byte, whose two top bits are 10. */
  predicate RuneStart(b: Byte) {
    b / 64 != 2
  }

  function CutPoint(s: Bytes, n: nat): (cut: nat)
    requires n < |s|
    ensures cut <= n
    ensures cut == 0 || RuneStart(s[cut])
    ensures forall i :: cut < i <= n ==> !RuneStart(s[i])
  {
    if n == 0 || RuneStart(s[n]) then n else CutPoint(s, n - 1)
  }

  function Truncated(s: Bytes, n: int): Bytes {
    if n <= 0 then []
    else if |s| <= n then s
    else if CutPoint(s, n) == 0 then ELLIPSIS
    else s[..CutPoint(s, n)] + ELLIPSIS
  }

  method Truncate(s: Bytes, n: int) returns (r: Bytes)
    ensures r == Truncated(s, n)
    ensures n <= 0 ==> r == []
    ensures 0 < n && |s| <= n ==> r == s
    ensures 0 < n < |s| ==>
              exists cut :: 0 <= cut <= n && r == s[..cut] + [46, 46, 46] && (cut == 0 || RuneStart(s[cut]))
                            && forall i :: cut < i <= n ==> !RuneStart(s[i])
  {
    if 0 < n < |s| {
      assert s[..CutPoint(s, n)] + ELLIPSIS == Truncated(s, n);
    }
    if n <= 0 {
      return [];
    }
    if |s| <= n {
      return s;
    }
    var cut: nat := n;
    while cut > 0 && !RuneStart(s[cut])
      invariant cut <= n
      invariant CutPoint(s, n) == CutPoint(s, cut)
    {
      cut := cut - 1;
    }
    if cut == 0 {
      return ELLIPSIS;
    }
    return s[..cut] + ELLIPSIS;
  }

  predicate Tail(b: Byte) {
    0x80 <= b <= 0xBF
  }

  /** How many bytes the lead byte `b` announces, and the range of the byte after it: the table of
      section 4 of RFC 3629. Zero for a byte that cannot start a sequence. */
  function Announced(b: Byte): (n: nat)
    ensures n <= 4
  {
    if b <= 0x7F then 1
    else if 0xC2 <= b <= 0xDF then 2
    else if 0xE0 <= b <= 0xEF then 3
    else if 0xF0 <= b <= 0xF4 then 4
    else 0
  }

  predicate Second(lead: Byte, b: Byte) {
    && Tail(b)
    && (lead == 0xE0 ==> b >= 0xA0)
    && (lead == 0xED ==> b <= 0x9F)
    && (lead == 0xF0 ==> b >= 0x90)
    && (lead == 0xF4 ==> b <= 0x8F)
  }

  /** The length of the well-formed sequence at the front of `s`, 0 if there is none. */
  function RuneLength(s: Bytes): (n: nat)
    ensures n <= |s|
  {
    if s == [] then 0
    else
      var n := Announced(s[0]);
      if n <= |s| && (n >= 2 ==> Second(s[0], s[1])) && (n >= 3 ==> Tail(s[2])) && (n >= 4 ==> Tail(s[3]))
      then n else 0
  }

  predicate ValidUtf8(s: Bytes)
    decreases |s|
  {
    s == [] || (RuneLength(s) > 0 && ValidUtf8(s[RuneLength(s)..]))
  }

  lemma {:induction false} ValidConcat(s: Bytes, t: Bytes)
    requires ValidUtf8(s) && ValidUtf8(t)
    ensures ValidUtf8(s + t)
    decreases |s|
  {
    if s == [] {
      assert s + t == t;
    } else {
      var n := RuneLength(s);
      ValidConcat(s[n..], t);
      assert (s + t)[n..] == s[n..] + t;
    }
  }

  lemma EllipsisIsValid()
    ensures ValidUtf8(ELLIPSIS)
  {
    assert ELLIPSIS[1..] == [46, 46] && ELLIPSIS[1..][1..] == [46] && ELLIPSIS[1..][1..][1..] == [];
    assert ValidUtf8(ELLIPSIS[1..][1..]);
  }

  /** Inside a sequence every byte after the first is a continuation. */
  lemma InsideARune(s: Bytes, i: nat)
    requires 0 < i < RuneLength(s)
    ensures !RuneStart(s[i])
  {
  }

  /** A cut in front of a rune start keeps a valid text valid. */
  lemma {:induction false} CutAtStartIsValid(s: Bytes, cut: nat)
    requires ValidUtf8(s) && cut < |s| && RuneStart(s[cut])
    ensures ValidUtf8(s[..cut])
    decreases |s|
  {
    var n := RuneLength(s);
    if 0 < cut < n {
      InsideARune(s, cut);
    } else if cut > 0 {
      CutAtStartIsValid(s[n..], cut - n);
      assert s[..cut][n..] == s[n..][..cut - n];
      assert RuneLength(s[..cut]) == n;
    }
  }

  lemma SameFront(s: Bytes, t: Bytes)
    requires RuneLength(s) <= |t| && t[..RuneLength(s)] == s[..RuneLength(s)] && RuneLength(s) > 0
    ensures RuneLength(t) == RuneLength(s)
  {
    assert forall i :: 0 <= i < RuneLength(s) ==> t[i] == t[..RuneLength(s)][i] == s[i];
  }

  /** A cut in front of a continuation byte never does, once the dots follow. */
  lemma {:induction false} CutInsideIsInvalid(s: Bytes, cut: nat)
    requires ValidUtf8(s) && cut < |s| && !RuneStart(s[cut])
    ensures !ValidUtf8(s[..cut] + ELLIPSIS)
    decreases |s|
  {
    var n := RuneLength(s);
    var t := s[..cut] + ELLIPSIS;
    if cut < n {
      assert cut > 0 by { assert s[0] <= 0x7F || s[0] >= 0xC2; }
      assert t[0] == s[0] && t[cut] == 46 && RuneLength(t) == 0;
    } else {
      CutInsideIsInvalid(s[n..], cut - n);
      assert t[n..] == s[n..][..cut - n] + ELLIPSIS;
      assert t[..n] == s[..n];
      SameFront(s, t);
    }
  }

  /** Truncate's promise: valid text stays valid, within n bytes and the dots. */
  lemma TruncateKeepsUtf8(s: Bytes, n: nat)
    requires ValidUtf8(s)
    ensures ValidUtf8(Truncated(s, n))
    ensures |Truncated(s, n)| <= n + 3
    ensures 0 < n < |s| ==> exists cut :: 0 <= cut <= n && Truncated(s, n) == s[..cut] + ELLIPSIS
  {
    EllipsisIsValid();
    if 0 < n < |s| {
      var cut := CutPoint(s, n);
      assert s[..0] + ELLIPSIS == ELLIPSIS;
      assert Truncated(s, n) == s[..cut] + ELLIPSIS;
      if cut > 0 {
        CutAtStartIsValid(s, cut);
        ValidConcat(s[..cut], ELLIPSIS);
      }
    }
  }

  // ---------------------------------------------------------------- the reader

  datatype SliceEnd = Delimiter | BufferFull | Eof | Broken

  datatype LineError = NoError | EndOfFile | UnexpectedEof | ReadError

  /** The stream a reader works on: the buffer's size, whether the source ends in an error, and
      whether it reports its end together with its last bytes or only on the next read. */
  datatype Source = Source(size: nat, fails: bool, eager: bool)

  /** bufio's ReadSlice('\n'): the chunk's length and how it ended. */
  function SliceOf(src: Source, rest: Bytes): (r: (nat, SliceEnd))
    requires src.size > 0
    ensures r.0 <= |rest| && r.0 <= src.size
  {
    var k := NewlineAt(rest);
    if k < |rest| && k < src.size then (k + 1, Delimiter)
    else if |rest| > src.size || (|rest| == src.size && !src.eager) then (src.size, BufferFull)
    else (|rest|, if src.fails then Broken else Eof)
  }

  // ---------------------------------------------------------------- what ReadLine computes

  /** What is left once the record at the front is gone. */
  function RestAfter(rest: Bytes): Bytes {
    if NewlineAt(rest) < |rest| then rest[NewlineAt(rest) + 1..] else []
  }

  /** Where in its buffer the byte at position `k` of the record falls: k modulo the size. */
  function Offset(size: nat, k: nat): (r: nat)
    requires size > 0
    ensures r < size
  {
    if k < size then k else Offset(size, k - size)
  }

  /** The first multiple of the buffer size above the cap. */
  function FirstOver(size: nat, max: nat): (r: nat)
    requires size > 0
    ensures max < r && Offset(size, r) == 0
  {
    if max < size then size else size + FirstOver(size, max - size)
  }

  /** The text of the first record as it is accumulated: a CR in front of the newline goes unless
      the newline is the first byte of a buffer. */
  function TextOf(src: Source, rest: Bytes): Bytes
    requires src.size > 0
  {
    var k := NewlineAt(rest);
    if 0 < k < |rest| && Offset(src.size, k) != 0 && rest[k - 1] == CR then rest[..k - 1] else rest[..k]
  }

  /** The cap is reached by a full buffer, before the end of the record is in sight. */
  predicate CutMidLine(src: Source, max: nat, rest: Bytes)
    requires src.size > 0
  {
    NewlineAt(rest) >= FirstOver(src.size, max) && (|rest| > FirstOver(src.size, max) || !src.eager)
  }

  function OnFailure(text: Bytes): (Bytes, bool, LineError) {
    if text == [] then ([], false, ReadError) else (text, false, NoError)
  }

  function LineOf(src: Source, max: nat, rest: Bytes): (Bytes, bool, LineError)
    requires src.size > 0
  {
    if CutMidLine(src, max, rest) then (rest[..max] + ELLIPSIS, true, NoError)
    else if NewlineAt(rest) == |rest| && src.fails then
      OnFailure(rest)
    else if rest == [] then ([], false, EndOfFile)
    else
      var text := TextOf(src, rest);
      (Truncated(text, max), |text| > max, NoError)
  }

  // ---------------------------------------------------------------- chunk by chunk

  /** What ReadLine takes from its last chunk. */
  function Content(chunk: Bytes, end: SliceEnd): Bytes {
    var n := |chunk|;
    if end != Delimiter || n == 0 || chunk[n - 1] != NL then chunk
    else if n > 1 && chunk[n - 2] == CR then chunk[..n - 2]
    else chunk[..n - 1]
  }

  /** What a complete last chunk makes of the record. */
  function Completed(text: Bytes, end: SliceEnd, max: nat): (Bytes, bool, LineError) {
    if |text| > max then (Truncated(text, max), true, NoError)
    else if text == [] && end == Eof then ([], false, EndOfFile)
    else (text, false, NoError)
  }

  /** The loop invariant: whole buffers of the record have been taken and the cap is not passed. */
  ghost predicate AtBoundary(src: Source, max: int, start: Bytes, buf: Bytes, rest: Bytes) {
    && src.size > 0 && 0 < max && start == buf + rest
    && |buf| <= max && |buf| <= NewlineAt(start)
    && Offset(src.size, |buf|) == 0
    && (rest == [] && buf != [] ==> !src.eager)
  }

  lemma {:induction false} OffsetNext(size: nat, m: nat, k: nat)
    requires size > 0 && Offset(size, m) == 0 && k < size
    ensures Offset(size, m + k) == k && Offset(size, m + size) == 0
  {
    if m > 0 {
      OffsetNext(size, m - size, k);
    }
  }

  /** From a boundary below the cap, the next boundary is at most the first one above the cap. */
  lemma {:induction false} BoundaryBelowCap(size: nat, m: nat, max: nat)
    requires size > 0 && m <= max && Offset(size, m) == 0
    ensures m + size <= FirstOver(size, max)
    ensures max < m + size ==> FirstOver(size, max) == m + size
  {
    if m > 0 {
      BoundaryBelowCap(size, m - size, max - size);
    }
  }

  lemma BoundaryText(src: Source, max: int, start: Bytes, buf: Bytes, rest: Bytes)
    requires AtBoundary(src, max, start, buf, rest)
    ensures NewlineAt(start) == |buf| + NewlineAt(rest)
    ensures |buf| + src.size <= FirstOver(src.size, max)
    ensures max < |buf| + src.size ==> FirstOver(src.size, max) == |buf| + src.size
  {
    assert start[|buf|..] == rest;
    NewlineAfter(start, |buf|);
    BoundaryBelowCap(src.size, |buf|, max);
  }

  /** The extra zero byte makes Truncate cut right behind `buf`. */
  lemma SentinelCut(buf: Bytes)
    requires buf != []
    ensures Truncated(buf + [0], |buf|) == buf + ELLIPSIS
  {
    assert (buf + [0])[|buf|] == 0 && (buf + [0])[..|buf|] == buf;
  }

  lemma DropKeepsRest(rest: Bytes, n: nat)
    requires n <= NewlineAt(rest)
    ensures RestAfter(rest[n..]) == RestAfter(rest)
  {
    NewlineAfter(rest, n);
    var k := NewlineAt(rest);
    if k < |rest| {
      assert rest[n..][k - n + 1..] == rest[k + 1..];
    }
  }

  lemma SliceKeepsRest(src: Source, rest: Bytes)
    requires src.size > 0
    ensures var n := SliceOf(src, rest);
            if n.1 == BufferFull then |rest[n.0..]| < |rest| && RestAfter(rest[n.0..]) == RestAfter(rest)
            else RestAfter(rest) == rest[n.0..]
  {
    hide NewlineAt;
    var n := SliceOf(src, rest);
    if n.1 == BufferFull {
      DropKeepsRest(rest, n.0);
    }
  }

  lemma DelimiterText(src: Source, max: int, start: Bytes, buf: Bytes, rest: Bytes)
    requires AtBoundary(src, max, start, buf, rest) && SliceOf(src, rest).1 == Delimiter
    ensures TextOf(src, start) == buf + Content(rest[..SliceOf(src, rest).0], Delimiter)
  {
    var n := SliceOf(src, rest).0;
    var m := |buf|;
    BoundaryText(src, max, start, buf, rest);
    OffsetNext(src.size, m, n - 1);
    assert start[..m + n - 1] == buf + rest[..n - 1];
    if n > 1 {
      assert start[m + n - 2] == rest[n - 2];
      assert start[..m + n - 2] == buf + rest[..n - 2];
      assert rest[..n][..n - 2] == rest[..n - 2];
    }
    assert rest[..n][..n - 1] == rest[..n - 1];
  }

  lemma DelimiterCase(src: Source, max: int, start: Bytes, buf: Bytes, rest: Bytes)
    requires AtBoundary(src, max, start, buf, rest) && SliceOf(src, rest).1 == Delimiter
    ensures LineOf(src, max, start) == Completed(buf + Content(rest[..SliceOf(src, rest).0], Delimiter), Delimiter, max)
  {
    DelimiterText(src, max, start, buf, rest);
    BoundaryText(src, max, start, buf, rest);
  }

  lemma EndCase(src: Source, max: int, start: Bytes, buf: Bytes, rest: Bytes)
    requires AtBoundary(src, max, start, buf, rest) && SliceOf(src, rest).1 in {Eof, Broken}
    ensures SliceOf(src, rest).0 == |rest| && NL !in start
    ensures LineOf(src, max, start) ==
            if src.fails then OnFailure(start) else Completed(start, Eof, max)
  {
    BoundaryText(src, max, start, buf, rest);
    assert start[..|start|] == start;
    NoNewlineIn(start);
  }

  lemma FullCase(src: Source, max: int, start: Bytes, buf: Bytes, rest: Bytes)
    requires AtBoundary(src, max, start, buf, rest) && SliceOf(src, rest).1 == BufferFull
    ensures if |buf| + src.size > max then
              max <= |start| && LineOf(src, max, start) == (start[..max] + ELLIPSIS, true, NoError)
            else AtBoundary(src, max, start, buf + rest[..src.size], rest[src.size..])
  {
    BoundaryText(src, max, start, buf, rest);
    OffsetNext(src.size, |buf|, 0);
    assert (buf + rest[..src.size]) + rest[src.size..] == start;
  }

  /** What the next chunk means for the record, whichever way it ends. */
  lemma ChunkMeans(src: Source, max: int, start: Bytes, buf: Bytes, rest: Bytes)
    requires AtBoundary(src, max, start, buf, rest)
    ensures |buf| <= max
    ensures var n := SliceOf(src, rest); var chunk := rest[..n.0];
            match n.1
            case BufferFull =>
              if |buf| + n.0 > max then LineOf(src, max, start) == ((buf + chunk)[..max] + ELLIPSIS, true, NoError)
              else AtBoundary(src, max, start, buf + chunk, rest[n.0..])
            case Broken =>
              NL !in buf + chunk && LineOf(src, max, start) == OnFailure(buf + chunk)
            case end => LineOf(src, max, start) == Completed(buf + Content(chunk, end), end, max)
  {
    var n := SliceOf(src, rest);
    if n.1 == Delimiter {
      DelimiterCase(src, max, start, buf, rest);
    } else if n.1 == BufferFull {
      FullCase(src, max, start, buf, rest);
      if |buf| + n.0 > max {
        assert start == (buf + rest[..n.0]) + rest[n.0..];
        assert (buf + rest[..n.0])[..max] == start[..max];
      }
    } else {
      EndCase(src, max, start, buf, rest);
      assert rest[..n.0] == rest;
    }
  }

  lemma AtStart(src: Source, max: nat, rest: Bytes)
    requires src.size > 0 && max > 0
    ensures AtBoundary(src, max, rest, [], rest)
  {
  }

  /** An error is reported exactly on an empty rest, and every record shortens it. */
  lemma ErrorsAtTheEnd(src: Source, max: nat, rest: Bytes)
    requires src.size > 0 && max > 0
    ensures LineOf(src, max, rest).2 ==
            if rest != [] then NoError else if src.fails then ReadError else EndOfFile
    ensures rest != [] ==> |RestAfter(rest)| < |rest|
    ensures rest == [] ==> RestAfter(rest) == []
  {
  }

  // ---------------------------------------------------------------- the reader as a program

  class LineReader {
    const src: Source
    const max: int
    var rest: Bytes
    ghost var peak: nat   // the most bytes ever accumulated for one line

    constructor (src: Source, max: int, stream: Bytes)
      ensures this.src == src && this.max == max && rest == stream && peak == 0
    {
      this.src := src;
      this.max := max;
      rest := stream;
      peak := 0;
    }

    method ReadSlice() returns (chunk: Bytes, end: SliceEnd)
      requires src.size > 0
      modifies this`rest
      ensures end == SliceOf(src, old(rest)).1
      ensures chunk == old(rest)[..SliceOf(src, old(rest)).0]
      ensures rest == old(rest)[SliceOf(src, old(rest)).0..]
    {
      var n := SliceOf(src, rest);
      chunk, end := rest[..n.0], n.1;
      rest := rest[n.0..];
    }

    method DiscardLine()
      requires src.size > 0
      modifies this`rest
      ensures rest == RestAfter(old(rest))
    {
      var end := BufferFull;
      while end == BufferFull
        invariant RestAfter(old(rest)) == if end == BufferFull then RestAfter(rest) else rest
        decreases end == BufferFull, |rest|
      {
        SliceKeepsRest(src, rest);
        var chunk;
        chunk, end := ReadSlice();
      }
    }

    /** The complete-chunk branch of ReadLine. */
    method FinishLine(buf: Bytes, chunk: Bytes, end: SliceEnd) returns (line: Bytes, truncated: bool, err: LineError)
      requires max > 0 && end in {Delimiter, Eof}
      modifies this`peak
      ensures (line, truncated, err) == Completed(buf + Content(chunk, end), end, max)
      ensures peak <= if old(peak) < |buf| + |chunk| then |buf| + |chunk| else old(peak)
    {
      var content := chunk;
      if end == Delimiter && |content| > 0 && content[|content| - 1] == NL {
        content := content[..|content| - 1];
        if |content| > 0 && content[|content| - 1] == CR {
          content := content[..|content| - 1];
        }
      }
      assert content == Content(chunk, end);
      peak := if |buf + content| > peak then |buf + content| else peak;
      if |buf| + |content| > max {
        line := Truncate(buf + content, max);
        return line, true, NoError;
      }
      if |buf + content| == 0 && end == Eof {
        return [], false, EndOfFile;
      }
      return buf + content, false, NoError;
    }

    /** The branch for a buffer that passes the cap before the record ends. */
    method CutLine(buf: Bytes, chunk: Bytes) returns (line: Bytes)
      requires src.size > 0 && |buf| <= max < |buf| + |chunk| && max > 0
      modifies this`rest, this`peak
      ensures line == (buf + chunk)[..max] + ELLIPSIS
      ensures rest == RestAfter(old(rest))
      ensures peak <= if old(peak) < max then max else old(peak)
    {
      var keep := max - |buf|;
      var kept := buf;
      if keep > 0 {
        kept := kept + chunk[..keep];
      }
      peak := if |kept| > peak then |kept| else peak;
      assert kept == (buf + chunk)[..max];
      DiscardLine();
      line := Truncate(kept + [0], max);
      SentinelCut(kept);
    }

    /** The branch for a source that fails: what was read so far goes out as it is. */
    method FailLine(buf: Bytes, chunk: Bytes) returns (line: Bytes, truncated: bool, err: LineError)
      requires NL !in buf + chunk
      modifies this`peak
      ensures (line, truncated, err) == OnFailure(buf + chunk)
      ensures peak <= if old(peak) < |buf| + |chunk| then |buf| + |chunk| else old(peak)
    {
      if |buf| + |chunk| > 0 {
        peak := if |buf + chunk| > peak then |buf + chunk| else peak;
        line := StripNewline(buf + chunk);
        return line, false, NoError;
      }
      return [], false, ReadError;
    }

    method ReadLine() returns (line: Bytes, truncated: bool, err: LineError)
      requires src.size > 0
      modifies this`rest, this`peak
      ensures max <= 0 ==> err == UnexpectedEof && line == [] && !truncated && rest == old(rest) && peak == old(peak)
      ensures max > 0 ==> (line, truncated, err) == LineOf(src, max, old(rest)) && rest == RestAfter(old(rest))
      ensures max > 0 && old(peak) <= max + src.size ==> peak <= max + src.size
      ensures max > 0 ==> (err == EndOfFile <==> old(rest) == [] && !src.fails)
      ensures max > 0 ==> (err == ReadError <==> old(rest) == [] && src.fails)
      ensures max > 0 && old(rest) != [] ==> err == NoError && |rest| < |old(rest)|
    {
      if max <= 0 {
        return [], false, UnexpectedEof;
      }
      ErrorsAtTheEnd(src, max, rest);
      AtStart(src, max, rest);
      hide LineOf, RestAfter, NewlineAt, Completed, OnFailure, Content, Offset, AtBoundary;
      ghost var start := rest;
      var buf: Bytes := [];
      while true
        invariant AtBoundary(src, max, start, buf, rest)
        invariant RestAfter(rest) == RestAfter(start)
        invariant peak == old(peak)
        decreases |rest|
      {
        ghost var left := rest;
        SliceKeepsRest(src, left);
        ChunkMeans(src, max, start, buf, left);
        var chunk, end := ReadSlice();
        if end == Delimiter || end == Eof {
          line, truncated, err := FinishLine(buf, chunk, end);
          return;
        }
        if end == BufferFull {
          if |buf| + |chunk| > max {
            line := CutLine(buf, chunk);
            return line, true, NoError;
          }
          buf := buf + chunk;
          continue;
        }
        line, truncated, err := FailLine(buf, chunk);
        return;
      }
    }

    method StripNewline(s: Bytes) returns (r: Bytes)
      ensures NL !in s ==> r == s
      ensures s != [] && s[|s| - 1] == NL ==>
                r == if |s| > 1 && s[|s| - 2] == CR then s[..|s| - 2] else s[..|s| - 1]
    {
      r := s;
      if |r| > 0 && r[|r| - 1] == NL {
        r := r[..|r| - 1];
        if |r| > 0 && r[|r| - 1] == CR {
          r := r[..|r| - 1];
        }
      }
    }
  }

  // ---------------------------------------------------------------- against the batch reading

  /** The record by the batch reading: through the newline or the end, without a closing CR LF. */
  function BatchText(rest: Bytes): Bytes {
    var k := NewlineAt(rest);
    if 0 < k < |rest| && rest[k - 1] == CR then rest[..k - 1] else rest[..k]
  }

  /** The record ends in CR LF, and its LF is the first byte of a new buffer. */
  predicate CrKept(src: Source, rest: Bytes)
    requires src.size > 0
  {
    var k := NewlineAt(rest);
    0 < k < |rest| && rest[k - 1] == CR && Offset(src.size, k) == 0
  }

  lemma CrLfStrippedExactlyWhen(src: Source, rest: Bytes)
    requires src.size > 0
    ensures TextOf(src, rest) == BatchText(rest) <==> !CrKept(src, rest)
    ensures CrKept(src, rest) ==> TextOf(src, rest) == BatchText(rest) + [CR]
  {
    if CrKept(src, rest) {
      var k := NewlineAt(rest);
      assert rest[..k] == rest[..k - 1] + [rest[k - 1]];
    }
  }

  /** A source that fails mid-record hands out what it had, whatever its length. */
  predicate EndsInError(src: Source, rest: Bytes) {
    NewlineAt(rest) == |rest| && src.fails
  }

  /** Main result: whatever the buffer size, a record is flagged exactly when its text is longer
      than the cap. */
  lemma FlaggedExactlyWhenLong(src: Source, max: nat, rest: Bytes)
    requires src.size > 0 && max > 0 && !EndsInError(src, rest)
    ensures LineOf(src, max, rest).1 <==> |TextOf(src, rest)| > max
  {
  }

  /** Main result: the text handed out is the batch truncation of the record's text exactly when
      the record was not cut mid-line or the byte at the cut starts a rune. */
  lemma CutIsBatchTruncationExactlyWhen(src: Source, max: nat, rest: Bytes)
    requires src.size > 0 && max > 0 && !EndsInError(src, rest)
    ensures LineOf(src, max, rest).0 == Truncated(TextOf(src, rest), max) <==>
            !CutMidLine(src, max, rest) || RuneStart(TextOf(src, rest)[max])
  {
    if CutMidLine(src, max, rest) {
      var text := TextOf(src, rest);
      assert text[..max] == rest[..max];
      var cut := CutPoint(text, max);
      if RuneStart(text[max]) {
        assert cut == max;
      } else {
        assert cut < max;
        assert |Truncated(text, max)| < |LineOf(src, max, rest).0|;
      }
    }
  }

  lemma {:induction false} CutPointOfPrefix(s: Bytes, t: Bytes, n: nat)
    requires n < |t| <= |s| && s[..|t|] == t
    ensures CutPoint(s, n) == CutPoint(t, n)
  {
    assert s[n] == s[..|t|][n];
    if n > 0 && !RuneStart(s[n]) {
      CutPointOfPrefix(s, t, n - 1);
    }
  }

  /** A cut before the end of `t`, in a text that goes on or not. */
  lemma TruncatedPrefix(s: Bytes, t: Bytes, max: nat)
    requires 0 < max < |t| <= |s| && s[..|t|] == t
    ensures Truncated(s, max) == Truncated(t, max)
  {
    CutPointOfPrefix(s, t, max);
    assert s[..CutPoint(s, max)] == t[..CutPoint(s, max)];
  }

  /** The sentinel's cut is the batch truncation exactly when it falls on a rune start. */
  lemma CutAsBatch(text: Bytes, max: nat)
    requires 0 < max < |text|
    ensures text[..max] + ELLIPSIS == Truncated(text, max) <==> RuneStart(text[max])
  {
    if !RuneStart(text[max]) {
      assert |Truncated(text, max)| < max + 3;
    }
  }

  /** Main result: the line handed out is what reading the whole record and truncating it gives, unless the
      record's CR was kept where it counts, or a cut made at a full buffer falls inside a rune. */
  lemma LineIsBatchReadingExactlyWhen(src: Source, max: nat, rest: Bytes)
    requires src.size > 0 && max > 0 && (CutMidLine(src, max, rest) || !EndsInError(src, rest))
    ensures LineOf(src, max, rest).0 == Truncated(BatchText(rest), max) <==>
            && !(CrKept(src, rest) && |BatchText(rest)| <= max)
            && (CutMidLine(src, max, rest) ==> RuneStart(rest[max]))
  {
    var batch := BatchText(rest);
    CrLfStrippedExactlyWhen(src, rest);
    if CutMidLine(src, max, rest) {
      if |batch| > max {
        assert batch[..max] == rest[..max] && batch[max] == rest[max];
        CutAsBatch(batch, max);
      } else {
        assert NewlineAt(rest) == FirstOver(src.size, max) == max + 1;
      }
    } else if CrKept(src, rest) {
      var text := batch + [CR];
      if |batch| > max {
        assert text[..|batch|] == batch;
        TruncatedPrefix(text, batch, max);
      } else if |batch| == max {
        assert text[..max] == batch && text[max] == CR;
        CutAsBatch(text, max);
      }
    }
  }

  /** And a record ended by an error before any cut is handed out whole. */
  lemma FailedRecordIsWhole(src: Source, max: nat, rest: Bytes)
    requires src.size > 0 && max > 0 && EndsInError(src, rest) && !CutMidLine(src, max, rest)
    ensures LineOf(src, max, rest).0 == BatchText(rest) == rest
    ensures !LineOf(src, max, rest).1
  {
    assert rest[..|rest|] == rest;
  }

  /** On valid text the mid-line cut yields valid text exactly when it falls on a rune boundary. */
  lemma MidLineCutIsValidExactlyWhen(src: Source, max: nat, rest: Bytes)
    requires src.size > 0 && max > 0 && CutMidLine(src, max, rest) && ValidUtf8(TextOf(src, rest))
    ensures ValidUtf8(LineOf(src, max, rest).0) <==> RuneStart(TextOf(src, rest)[max])
  {
    var text := TextOf(src, rest);
    assert text[..max] == rest[..max];
    if RuneStart(text[max]) {
      CutAtStartIsValid(text, max);
      EllipsisIsValid();
      ValidConcat(text[..max], ELLIPSIS);
    } else {
      CutInsideIsInvalid(text, max);
    }
  }

  /** Reading a whole stream record by record. */
  function AllLines(src: Source, max: nat, rest: Bytes): seq<(Bytes, bool)>
    requires src.size > 0
    decreases |rest|
  {
    if rest == [] then []
    else [(LineOf(src, max, rest).0, LineOf(src, max, rest).1)] + AllLines(src, max, RestAfter(rest))
  }

  lemma RecordsFirst(src: Source, max: nat, rest: Bytes)
    requires src.size > 0 && rest != []
    ensures var line := LineOf(src, max, rest);
            AllLines(src, max, rest) == [(line.0, line.1)] + AllLines(src, max, RestAfter(rest))
  {
  }

  lemma NoRecords(src: Source, max: nat)
    requires src.size > 0
    ensures AllLines(src, max, []) == []
  {
  }

  /** Reading until an error. Main result: it comes to an end, with the end of the stream or the source's error as
      it is, and has read every record, each as read on its own. */
  method ReadAll(src: Source, max: int, stream: Bytes) returns (lines: seq<(Bytes, bool)>, err: LineError)
    requires src.size > 0 && max > 0
    ensures lines == AllLines(src, max, stream)
    ensures err == if src.fails then ReadError else EndOfFile
  {
    hide LineOf, RestAfter, AllLines;
    var r := new LineReader(src, max, stream);
    lines, err := [], NoError;
    NoRecords(src, max);
    while err == NoError
      invariant r.src == src && r.max == max
      invariant lines + AllLines(src, max, r.rest) == AllLines(src, max, stream)
      invariant err != NoError ==> r.rest == [] && err == if src.fails then ReadError else EndOfFile
      decreases |r.rest|, err == NoError
    {
      ghost var before := r.rest;
      ErrorsAtTheEnd(src, max, before);
      if before != [] {
        RecordsFirst(src, max, before);
      }
      var line, truncated;
      line, truncated, err := r.ReadLine();
      if err == NoError {
        lines := lines + [(line, truncated)];
      }
    }
  }

  /** Putting newlines back between and after the records. */
  function Joined(lines: seq<(Bytes, bool)>, closed: bool): Bytes {
    if lines == [] then []
    else lines[0].0 + (if |lines| > 1 || closed then [NL] else []) + Joined(lines[1..], closed)
  }

  predicate NoneLonger(rest: Bytes, max: nat)
    decreases |rest|
  {
    rest == [] || (NewlineAt(rest) <= max && NoneLonger(RestAfter(rest), max))
  }

  lemma ShortRecordIsWhole(src: Source, max: nat, rest: Bytes)
    requires src.size > 0 && max > 0 && CR !in rest && rest != [] && NewlineAt(rest) <= max
    ensures LineOf(src, max, rest).0 == rest[..NewlineAt(rest)] && !LineOf(src, max, rest).1
  {
    assert rest[..|rest|] == rest;
  }

  lemma StreamSplits(rest: Bytes)
    requires rest != []
    ensures var k, next := NewlineAt(rest), RestAfter(rest);
            if next != [] then rest == rest[..k] + [NL] + next && next[|next| - 1] == rest[|rest| - 1]
            else if rest[|rest| - 1] == NL then rest == rest[..k] + [NL] else rest == rest[..k]
  {
    var k := NewlineAt(rest);
    if k == |rest| {
      assert rest[|rest| - 1] in rest[..k];
    }
  }

  /** Round trip: a CR-free stream with no over-long record comes back from its records, whatever
      the buffer size and however the source reports its end. */
  lemma {:induction false} RecordsRebuildTheStream(src: Source, max: nat, rest: Bytes)
    requires src.size > 0 && max > 0 && CR !in rest && NoneLonger(rest, max)
    ensures Joined(AllLines(src, max, rest), rest != [] && rest[|rest| - 1] == NL) == rest
    ensures forall i :: 0 <= i < |AllLines(src, max, rest)| ==> !AllLines(src, max, rest)[i].1
    decreases |rest|
  {
    if rest != [] {
      var k := NewlineAt(rest);
      var next := RestAfter(rest);
      var closed := rest[|rest| - 1] == NL;
      ShortRecordIsWhole(src, max, rest);
      RecordsRebuildTheStream(src, max, next);
      var lines := AllLines(src, max, rest);
      assert lines[1..] == AllLines(src, max, next);
      StreamSplits(rest);
      if next == [] {
        assert Joined(lines[1..], closed) == [];
      } else {
        assert AllLines(src, max, next) != [];
      }
    }
  }

  // ---------------------------------------------------------------- where the promises fail

  /** For every buffer size, some CR LF record keeps its CR. */
  lemma CrKeptAtTheBoundary(src: Source, max: nat) returns (rest: Bytes)
    requires src.size > 1 && max > src.size
    ensures BatchText(rest) + [CR] == TextOf(src, rest) == LineOf(src, max, rest).0
  {
    var text: Bytes := seq(src.size - 1, _ => 97) + [CR];
    rest := text + [NL];
    NewlineInConcat(text, [NL]);
    NoNewlineIn(text);
    OffsetNext(src.size, 0, 0);
    assert rest[..src.size] == text && rest[src.size - 1] == CR;
    assert rest[..src.size - 1] + [CR] == text;
    assert FirstOver(src.size, max) > max;
  }

  lemma {:induction false} PlainIsValid(n: nat)
    ensures ValidUtf8(seq(n, _ => 97 as Byte))
  {
    if n > 0 {
      PlainIsValid(n - 1);
      var s := seq(n, _ => 97 as Byte);
      assert s[1..] == seq(n - 1, _ => 97 as Byte);
    }
  }

  /** For every buffer size, some valid record comes out cut inside a rune: Truncate's promise does
      not carry over to the reader. */
  lemma RuneSplitMidLine(src: Source) returns (rest: Bytes, max: nat)
    requires src.size > 1
    ensures max > 0 && ValidUtf8(rest) && !ValidUtf8(LineOf(src, max, rest).0)
  {
    var plain: Bytes := seq(src.size - 2, _ => 97);
    rest := plain + [0xC3, 0xA9, 97];
    max := src.size - 1;
    NoNewlineIn(rest);
    PlainIsValid(src.size - 2);
    assert RuneLength([0xC3, 0xA9, 97]) == 2 && [0xC3, 0xA9, 97][2..] == [97];
    assert [97][1..] == [] && RuneLength([97]) == 1 && ValidUtf8([97]);
    ValidConcat(plain, [0xC3, 0xA9, 97]);
    assert rest[..|rest|] == rest && TextOf(src, rest) == rest;
    assert FirstOver(src.size, max) == src.size;
    assert rest[max] == 0xA9;
    MidLineCutIsValidExactlyWhen(src, max, rest);
  }
}
