/**
The stream archive (internal/streamarchive): a redacting line writer on top of a capped writer.
JSON text is a codec given from outside; the trees it produces are redacted here. The destination
never fails; `marker` is the rendered truncation line.
*/
module StreamArchive {
  import opened Options
  import opened ByteText
  import opened TextLines

  // ---------------------------------------------------------------- JSON trees

  datatype Json =
    | Null
    | Bool(b: bool)
    | Number(text: string)
    | Text(s: string)
    | Array(items: seq<Json>)
    | Object(fields: map<string, Json>)

  const SENSITIVE := {"prompt", "text", "content", "input", "output", "file_text", "thinking"}

  const REDACTED := Text("[REDACTED]")

  function Redact(j: Json): Json
    decreases j
  {
    match j
    case Object(m) => Object(map k | k in m :: if k in SENSITIVE then REDACTED else Redact(m[k]))
    case Array(xs) => Array(seq(|xs|, i requires 0 <= i < |xs| => Redact(xs[i])))
    case _ => j
  }

  method RedactMap(m: map<string, Json>) returns (r: map<string, Json>)
    ensures Object(r) == Redact(Object(m))
    decreases Object(m), 0
  {
    r := m;
    ghost var want := Redact(Object(m)).fields;
    var todo := m.Keys;
    while todo != {}
      invariant todo <= m.Keys == r.Keys == want.Keys
      invariant forall k :: k in todo ==> r[k] == m[k]
      invariant forall k :: k in m && k !in todo ==> r[k] == want[k]
      decreases |todo|
    {
      var k :| k in todo;
      if k in SENSITIVE {
        r := r[k := REDACTED];
      } else {
        assert m == Object(m).fields;
        var v := RedactValue(m[k]);
        r := r[k := v];
      }
      assert r[k] == want[k];
      todo := todo - {k};
    }
    assert r == want;
  }

  method RedactValue(v: Json) returns (r: Json)
    ensures r == Redact(v)
    decreases v, 1
  {
    match v
    case Object(m) =>
      var m' := RedactMap(m);
      r := Object(m');
    case Array(xs) =>
      var ys := xs;
      for i := 0 to |xs|
        invariant |ys| == |xs|
        invariant forall j :: 0 <= j < i ==> ys[j] == Redact(xs[j])
        invariant forall j :: i <= j < |xs| ==> ys[j] == xs[j]
      {
        var y := RedactValue(xs[i]);
        ys := ys[i := y];
      }
      assert ys == Redact(v).items;
      r := Array(ys);
    case _ =>
      r := v;
  }

  datatype Hop = Field(key: string) | Item(index: nat)

  /** The value at the end of a path through a tree. */
  function Lookup(j: Json, path: seq<Hop>): Option<Json>
    decreases |path|
  {
    if path == [] then Some(j)
    else match path[0]
      case Field(k) => if j.Object? && k in j.fields then Lookup(j.fields[k], path[1..]) else None
      case Item(i) => if j.Array? && i < |j.items| then Lookup(j.items[i], path[1..]) else None
  }

  predicate Hidden(hop: Hop) {
    hop.Field? && hop.key in SENSITIVE
  }

  /** Off the sensitive keys the tree keeps its shape: a path leads to the same value, redacted. */
  lemma {:induction false} OtherPathsKept(j: Json, path: seq<Hop>)
    requires forall i :: 0 <= i < |path| ==> !Hidden(path[i])
    ensures Lookup(Redact(j), path) ==
            match Lookup(j, path) { case None => None case Some(v) => Some(Redact(v)) }
    decreases |path|
  {
    if path != [] {
      assert !Hidden(path[0]);
      assert forall i :: 0 <= i < |path[1..]| ==> path[1..][i] == path[i + 1];
      if path[0].Field? && j.Object? && path[0].key in j.fields {
        OtherPathsKept(j.fields[path[0].key], path[1..]);
      } else if path[0].Item? && j.Array? && path[0].index < |j.items| {
        OtherPathsKept(j.items[path[0].index], path[1..]);
      }
    }
  }

  lemma {:induction false} LookupConcat(j: Json, p: seq<Hop>, q: seq<Hop>)
    ensures Lookup(j, p + q) == match Lookup(j, p) { case None => None case Some(v) => Lookup(v, q) }
    decreases |p|
  {
    if p == [] {
      assert p + q == q;
    } else {
      assert (p + q)[1..] == p[1..] + q;
      match p[0]
      case Field(k) => if j.Object? && k in j.fields { LookupConcat(j.fields[k], p[1..], q); }
      case Item(i) => if j.Array? && i < |j.items| { LookupConcat(j.items[i], p[1..], q); }
    }
  }

  /** Every sensitive key that is there, at whatever depth, reads "[REDACTED]" afterwards. */
  lemma SensitiveKeysRedacted(j: Json, path: seq<Hop>, key: string)
    requires forall i :: 0 <= i < |path| ==> !Hidden(path[i])
    requires key in {"prompt", "text", "content", "input", "output", "file_text", "thinking"}
    ensures Lookup(Redact(j), path + [Field(key)]) ==
            if Lookup(j, path + [Field(key)]).Some? then Some(REDACTED) else None
  {
    OtherPathsKept(j, path);
    LookupConcat(j, path, [Field(key)]);
    LookupConcat(Redact(j), path, [Field(key)]);
    assert [Field(key)][1..] == [];
  }

  predicate Clean(j: Json)
    decreases j
  {
    match j
    case Object(m) => forall k :: k in m ==> if k in SENSITIVE then m[k] == REDACTED else Clean(m[k])
    case Array(xs) => forall i :: 0 <= i < |xs| ==> Clean(xs[i])
    case _ => true
  }

  lemma {:induction false} RedactCleans(j: Json)
    ensures Clean(Redact(j))
    decreases j
  {
    match j
    case Object(m) =>
      forall k | k in m && k !in SENSITIVE
        ensures Clean(Redact(m[k]))
      {
        RedactCleans(m[k]);
      }
    case Array(xs) =>
      forall i | 0 <= i < |xs|
        ensures Clean(Redact(xs[i]))
      {
        RedactCleans(xs[i]);
      }
    case _ =>
  }

  /** Redaction leaves a tree alone exactly when nothing sensitive is left in it. */
  lemma {:induction false} FixedExactlyWhenClean(j: Json)
    ensures Redact(j) == j <==> Clean(j)
    decreases j
  {
    match j
    case Object(m) =>
      forall k | k in m && k !in SENSITIVE
        ensures Redact(m[k]) == m[k] <==> Clean(m[k])
      {
        FixedExactlyWhenClean(m[k]);
      }
      if Clean(j) {
        assert Redact(j).fields == m;
      } else {
        var k :| k in m && !(if k in SENSITIVE then m[k] == REDACTED else Clean(m[k]));
        assert Redact(j).fields[k] != m[k];
      }
    case Array(xs) =>
      forall i | 0 <= i < |xs|
        ensures Redact(xs[i]) == xs[i] <==> Clean(xs[i])
      {
        FixedExactlyWhenClean(xs[i]);
      }
      if Clean(j) {
        assert Redact(j).items == xs;
      } else {
        var i :| 0 <= i < |xs| && !Clean(xs[i]);
        assert Redact(j).items[i] != xs[i];
      }
    case _ =>
  }

  lemma RedactIsIdempotent(j: Json)
    ensures Redact(Redact(j)) == Redact(j)
  {
    RedactCleans(j);
    FixedExactlyWhenClean(Redact(j));
  }

  // ---------------------------------------------------------------- lines

  /** encoding/json as the archive uses it: `parse` accepts an object (or null), `marshal` may fail. */
  datatype Codec = Codec(parse: Bytes -> Option<Json>, marshal: Json -> Option<Bytes>)

  function RedactLine(c: Codec, line: Bytes): Bytes {
    match c.parse(line)
    case None => line
    case Some(data) =>
      match c.marshal(Redact(data))
      case None => line
      case Some(redacted) => redacted
  }

  function Render(f: Bytes -> Bytes, lines: seq<Bytes>): Bytes {
    if lines == [] then []
    else Render(f, lines[..|lines| - 1]) + (f(lines[|lines| - 1]) + [NL])
  }

  /** The batch reading: every line of the whole input redacted, the last one as it stands. */
  function Processed(f: Bytes -> Bytes, s: Bytes): Bytes {
    Render(f, Lines(NL, s)) + if Partial(NL, s) == [] then [] else f(Partial(NL, s))
  }

  /** The capped file: the stream if it fits, otherwise its first `limit` bytes and one marker. */
  function Cap(limit: nat, marker: Bytes, stream: Bytes): Bytes {
    if |stream| <= limit then stream else stream[..limit] + marker
  }

  /** The archive file of a run whose whole output is `s`. */
  function Archived(f: Bytes -> Bytes, limit: nat, marker: Bytes, s: Bytes): Bytes {
    Cap(limit, marker, Processed(f, s))
  }

  class CappedWriter {
    const limit: nat
    const marker: Bytes
    var dst: Bytes
    var written: nat
    var isSealed: bool
    ghost var total: Bytes   // everything ever written here

    ghost predicate Valid()
      reads this
    {
      && dst == Cap(limit, marker, total)
      && (isSealed <==> |total| > limit)
      && (!isSealed ==> written == |total|)
    }

    constructor (limit: nat, marker: Bytes)
      ensures Valid() && this.limit == limit && this.marker == marker && total == []
    {
      this.limit := limit;
      this.marker := marker;
      dst, written, isSealed, total := [], 0, false, [];
    }

    method Write(p: Bytes) returns (n: nat)
      requires Valid()
      modifies this
      ensures Valid() && total == old(total) + p && n == |p|
      ensures dst == if |total| <= limit then total else total[..limit] + marker
    {
      total := total + p;
      if isSealed {
        assert total[..limit] == old(total)[..limit];
        return |p|;
      }
      if written + |p| > limit {
        var allow := limit - written;
        if allow > 0 {
          dst := dst + p[..allow];
          written := written + allow;
        }
        assert total[..limit] == dst;
        dst := dst + marker;
        isSealed := true;
        return |p|;
      }
      dst := dst + p;
      written := written + |p|;
      return |p|;
    }
  }

  /** The lines of `all` are those done and those still to come in `left`. */
  ghost predicate Forwarded(all: Bytes, done: seq<Bytes>, left: Bytes) {
    Lines(NL, all) == done + Lines(NL, left) && Partial(NL, all) == Partial(NL, left)
  }

  lemma ForwardOne(all: Bytes, done: seq<Bytes>, left: Bytes, line: Bytes, rest: Bytes)
    requires Forwarded(all, done, left) && left == (line + [NL]) + rest && NL !in line
    ensures Forwarded(all, done + [line], rest)
  {
    LineFirst(NL, line, rest);
    Associates(done, [line], Lines(NL, rest));
  }

  lemma ForwardEnd(all: Bytes, done: seq<Bytes>, left: Bytes)
    requires Forwarded(all, done, left) && NL !in left
    ensures Lines(NL, all) == done && Partial(NL, all) == left
  {
    NoMoreLines(NL, left);
    assert done + [] == done;
  }

  lemma PieceAt(s: Bytes, from: nat, i: nat)
    requires from + i < |s| && i == NewlineAt(s[from..])
    ensures s[from..] == (s[from..from + i] + [NL]) + s[from + i + 1..]
    ensures NL !in s[from..from + i]
  {
    FrontHasNoNewline(s[from..]);
    assert s[from..][..i] == s[from..from + i] && s[from..][i] == s[from + i];
  }

  lemma RenderSnoc(f: Bytes -> Bytes, lines: seq<Bytes>, line: Bytes)
    ensures Render(f, lines + [line]) == Render(f, lines) + (f(line) + [NL])
  {
    assert (lines + [line])[..|lines|] == lines;
  }

  lemma RenderOne(f: Bytes -> Bytes, before: Bytes, total: Bytes, done: seq<Bytes>, line: Bytes)
    requires total == before + Render(f, done)
    ensures total + (f(line) + [NL]) == before + Render(f, done + [line])
  {
    RenderSnoc(f, done, line);
    Associates(before, Render(f, done), f(line) + [NL]);
  }

  lemma {:induction false} RenderConcat(f: Bytes -> Bytes, xs: seq<Bytes>, ys: seq<Bytes>)
    ensures Render(f, xs + ys) == Render(f, xs) + Render(f, ys)
  {
    if ys == [] {
      assert xs + ys == xs;
    } else {
      var n := |ys| - 1;
      RenderConcat(f, xs, ys[..n]);
      assert ys == ys[..n] + [ys[n]];
      Associates(xs, ys[..n], [ys[n]]);
      RenderSnoc(f, xs + ys[..n], ys[n]);
      RenderSnoc(f, ys[..n], ys[n]);
      Associates(Render(f, xs), Render(f, ys[..n]), f(ys[n]) + [NL]);
    }
  }

  class RedactingWriter {
    const redactLine: Bytes -> Bytes
    const w: CappedWriter
    var pending: Bytes
    ghost var input: Bytes   // everything ever written here

    ghost predicate Valid()
      reads this, w
    {
      w.Valid() && pending == Partial(NL, input) && w.total == Render(redactLine, Lines(NL, input))
    }

    constructor (redactLine: Bytes -> Bytes, w: CappedWriter)
      requires w.Valid() && w.total == []
      ensures Valid() && this.redactLine == redactLine && this.w == w && input == []
    {
      this.redactLine := redactLine;
      this.w := w;
      pending, input := [], [];
    }

    method WriteRedacted(line: Bytes, newline: bool)
      requires w.Valid()
      modifies w
      ensures w.Valid()
      ensures w.total == old(w.total) + (redactLine(line) + if newline then [NL] else [])
    {
      var out := redactLine(line);
      if newline {
        out := out + [NL];
      }
      var _ := w.Write(out);
    }

    /** Forwards every complete line of `pending`; the rest starts at `consumed`. */
    method ForwardLines() returns (consumed: nat)
      requires w.Valid()
      modifies w
      ensures w.Valid() && w.total == old(w.total) + Render(redactLine, Lines(NL, pending))
      ensures consumed <= |pending| && pending[consumed..] == Partial(NL, pending)
    {
      consumed := 0;
      ghost var done: seq<Bytes> := [];
      while true
        invariant consumed <= |pending| && w.Valid()
        invariant w.total == old(w.total) + Render(redactLine, done)
        invariant Forwarded(pending, done, pending[consumed..])
        decreases |pending| - consumed
      {
        var i := NewlineAt(pending[consumed..]);
        if i == |pending[consumed..]| {
          NoNewlineIn(pending[consumed..]);
          ForwardEnd(pending, done, pending[consumed..]);
          return;
        }
        var line := pending[consumed..consumed + i];
        PieceAt(pending, consumed, i);
        ForwardOne(pending, done, pending[consumed..], line, pending[consumed + i + 1..]);
        RenderOne(redactLine, old(w.total), w.total, done, line);
        WriteRedacted(line, true);
        done := done + [line];
        consumed := consumed + i + 1;
      }
    }

    method Write(p: Bytes) returns (n: nat)
      requires Valid()
      modifies this, w
      ensures Valid() && input == old(input) + p && n == |p|
    {
      LinesConcat(NL, input, p);
      RenderConcat(redactLine, Lines(NL, input), Lines(NL, pending + p));
      input := input + p;
      pending := pending + p;
      var consumed := ForwardLines();
      pending := pending[consumed..];
      return |p|;
    }

    /** Flushes the unterminated line, without adding a newline. */
    method Close()
      requires Valid()
      modifies this, w
      ensures w.Valid() && w.total == Processed(redactLine, input) && input == old(input) && pending == []
    {
      if |pending| == 0 {
        return;
      }
      var line := pending;
      pending := [];
      WriteRedacted(line, false);
    }
  }

  function Flatten(writes: seq<Bytes>): Bytes {
    if writes == [] then [] else Flatten(writes[..|writes| - 1]) + writes[|writes| - 1]
  }

  /**
  Main result: however a run's output is sliced into writes, the archive file after Close is the
  capped redaction of the whole output.
  */
  method Archive(codec: Codec, limit: nat, marker: Bytes, writes: seq<Bytes>) returns (file: Bytes)
    ensures file == Archived(line => RedactLine(codec, line), limit, marker, Flatten(writes))
    ensures var out := Processed(line => RedactLine(codec, line), Flatten(writes));
            file == if |out| <= limit then out else out[..limit] + marker
  {
    var redact := line => RedactLine(codec, line);
    var capped := new CappedWriter(limit, marker);
    var rw := new RedactingWriter(redact, capped);
    for i := 0 to |writes|
      invariant rw.Valid() && fresh(rw) && fresh(rw.w) && rw.redactLine == redact && rw.w == capped
      invariant rw.input == Flatten(writes[..i])
      invariant capped.limit == limit && capped.marker == marker
    {
      var _ := rw.Write(writes[i]);
      assert writes[..i + 1][..i] == writes[..i];
    }
    assert writes[..|writes|] == writes;
    rw.Close();
    file := capped.dst;
  }

  // ---------------------------------------------------------------- redacting twice

  /** What the archive relies on in the codec: marshalled text is one line and parses back. */
  ghost predicate RoundTrips(c: Codec) {
    forall j, b :: c.marshal(j) == Some(b) ==> c.parse(b) == Some(j) && NL !in b
  }

  lemma LineTwice(c: Codec, line: Bytes)
    requires RoundTrips(c)
    ensures RedactLine(c, RedactLine(c, line)) == RedactLine(c, line)
    ensures NL !in line ==> NL !in RedactLine(c, line)
  {
    var p := c.parse(line);
    if p.Some? {
      RedactIsIdempotent(p.value);
      var m := c.marshal(Redact(p.value));
    }
  }

  lemma RenderedTail(f: Bytes -> Bytes, front: Bytes, line: Bytes, tail: Bytes)
    requires NL !in line && NL !in tail && Partial(NL, front) == []
    ensures Lines(NL, front + ((line + [NL]) + tail)) == Lines(NL, front) + [line]
    ensures Partial(NL, front + ((line + [NL]) + tail)) == tail
  {
    var more := (line + [NL]) + tail;
    LinesConcat(NL, front, more);
    assert [] + more == more;
    LineFirst(NL, line, tail);
    NoMoreLines(NL, tail);
  }

  function Mapped(f: Bytes -> Bytes, lines: seq<Bytes>): seq<Bytes> {
    if lines == [] then [] else Mapped(f, lines[..|lines| - 1]) + [f(lines[|lines| - 1])]
  }

  /** Reading back what was rendered: the same lines, then the unterminated rest. */
  lemma {:induction false} LinesOfRendered(f: Bytes -> Bytes, lines: seq<Bytes>, tail: Bytes)
    requires forall i :: 0 <= i < |lines| ==> NL !in f(lines[i])
    requires NL !in tail
    ensures Lines(NL, Render(f, lines) + tail) == Mapped(f, lines)
    ensures Partial(NL, Render(f, lines) + tail) == tail
  {
    if lines == [] {
      assert Render(f, lines) + tail == tail;
      NoMoreLines(NL, tail);
    } else {
      var n := |lines| - 1;
      var line := f(lines[n]);
      var front := Render(f, lines[..n]);
      LinesOfRendered(f, lines[..n], []);
      assert front + [] == front;
      RenderedTail(f, front, line, tail);
      Associates(front, line + [NL], tail);
    }
  }

  lemma {:induction false} MappedAt(f: Bytes -> Bytes, lines: seq<Bytes>)
    ensures |Mapped(f, lines)| == |lines|
    ensures forall i :: 0 <= i < |lines| ==> Mapped(f, lines)[i] == f(lines[i])
  {
    if lines != [] {
      MappedAt(f, lines[..|lines| - 1]);
    }
  }

  lemma {:induction false} RenderTwice(f: Bytes -> Bytes, lines: seq<Bytes>)
    requires forall line :: f(f(line)) == f(line)
    ensures Render(f, Mapped(f, lines)) == Render(f, lines)
  {
    if lines != [] {
      var n := |lines| - 1;
      RenderTwice(f, lines[..n]);
      RenderSnoc(f, Mapped(f, lines[..n]), f(lines[n]));
    }
  }

  lemma ProcessedTwice(f: Bytes -> Bytes, s: Bytes)
    requires forall line :: f(f(line)) == f(line) && (NL !in line ==> NL !in f(line))
    ensures Processed(f, Processed(f, s)) == Processed(f, s)
  {
    var lines, tail := Lines(NL, s), Partial(NL, s);
    var out := if tail == [] then [] else f(tail);
    NothingInside(NL, s);
    LinesOfRendered(f, lines, out);
    RenderTwice(f, lines);
  }

  /** What the archive relies on in a line's redaction: it is done once and for all, and stays one line. */
  ghost predicate Settles(f: Bytes -> Bytes) {
    forall line :: f(f(line)) == f(line) && (NL !in line ==> NL !in f(line))
  }

  lemma RedactLineSettles(c: Codec)
    requires RoundTrips(c)
    ensures Settles(line => RedactLine(c, line))
  {
    var f := line => RedactLine(c, line);
    forall line
      ensures f(f(line)) == f(line) && (NL !in line ==> NL !in f(line))
    {
      LineTwice(c, line);
    }
  }

  predicate AllFixed(f: Bytes -> Bytes, lines: seq<Bytes>) {
    forall i :: 0 <= i < |lines| ==> f(lines[i]) == lines[i]
  }

  lemma {:induction false} MappedAreFixed(f: Bytes -> Bytes, lines: seq<Bytes>)
    requires Settles(f)
    ensures AllFixed(f, Mapped(f, lines))
  {
    if lines != [] {
      MappedAreFixed(f, lines[..|lines| - 1]);
    }
  }

  lemma {:induction false} FixedRendersAsIs(f: Bytes -> Bytes, lines: seq<Bytes>)
    requires AllFixed(f, lines)
    ensures Render(f, lines) == Joined(NL, lines)
  {
    if lines != [] {
      FixedRendersAsIs(f, lines[..|lines| - 1]);
    }
  }

  lemma FrontOfLines(out: Bytes, limit: nat)
    requires limit <= |out|
    ensures Lines(NL, out[..limit]) <= Lines(NL, out)
  {
    hide Lines, Partial;
    var front := out[..limit];
    assert front + out[limit..] == out;
    LinesConcat(NL, front, out[limit..]);
  }

  lemma FixedPrefix(f: Bytes -> Bytes, front: seq<Bytes>, all: seq<Bytes>)
    requires front <= all && AllFixed(f, all)
    ensures AllFixed(f, front)
  {
    forall i | 0 <= i < |front| ensures f(front[i]) == front[i] {
      assert front[i] == all[i];
    }
  }

  /** The complete lines in any front part of a redacted stream are redacted. */
  lemma FrontIsFixed(f: Bytes -> Bytes, s: Bytes, limit: nat)
    requires Settles(f) && limit <= |Processed(f, s)|
    ensures AllFixed(f, Lines(NL, Processed(f, s)[..limit]))
  {
    var out := Processed(f, s);
    var lines, tail := Lines(NL, s), Partial(NL, s);
    NothingInside(NL, s);
    LinesOfRendered(f, lines, if tail == [] then [] else f(tail));
    MappedAreFixed(f, lines);
    FrontOfLines(out, limit);
    FixedPrefix(f, Lines(NL, out[..limit]), Mapped(f, lines));
  }

  /**
  `line` is what the archive may hold for the line `was`: an object or null that can be written down
  parses as the masked tree, with no sensitive key left in it; anything else stands as it was.
  */
  predicate RedactionOf(c: Codec, line: Bytes, was: Bytes) {
    match c.parse(was)
    case None => line == was
    case Some(j) =>
      if c.marshal(Redact(j)).None? then line == was
      else c.parse(line) == Some(Redact(j)) && Clean(Redact(j))
  }

  lemma RedactLineMeans(c: Codec, line: Bytes)
    requires RoundTrips(c)
    ensures RedactionOf(c, RedactLine(c, line), line)
  {
    var p := c.parse(line);
    if p.Some? {
      RedactCleans(p.value);
      var m := c.marshal(Redact(p.value));
    }
  }

  /** Line by line, the stream behind the redacting writer is the redaction of the input; a line without a
      newline at the end is kept, redacted, without one. */
  lemma StreamIsRedacted(c: Codec, s: Bytes)
    requires RoundTrips(c)
    ensures var out := Processed(line => RedactLine(c, line), s);
            && |Lines(NL, out)| == |Lines(NL, s)|
            && (forall i :: 0 <= i < |Lines(NL, s)| ==> RedactionOf(c, Lines(NL, out)[i], Lines(NL, s)[i]))
            && (Partial(NL, s) == [] ==> Partial(NL, out) == [])
            && (Partial(NL, s) != [] ==> RedactionOf(c, Partial(NL, out), Partial(NL, s)))
  {
    var f := line => RedactLine(c, line);
    var lines, tail := Lines(NL, s), Partial(NL, s);
    RedactLineSettles(c);
    NothingInside(NL, s);
    LinesOfRendered(f, lines, if tail == [] then [] else f(tail));
    MappedAt(f, lines);
    forall i | 0 <= i < |lines| ensures RedactionOf(c, f(lines[i]), lines[i]) {
      RedactLineMeans(c, lines[i]);
    }
    RedactLineMeans(c, tail);
  }

  /** Main result: each complete line of an archive file, up to the place where the cap cuts it, is the
      redaction of the same line of the run's output. */
  lemma ArchivedLinesAreRedacted(c: Codec, limit: nat, marker: Bytes, s: Bytes, i: nat)
    requires RoundTrips(c)
    ensures var f := line => RedactLine(c, line);
            var out := Processed(f, s);
            var kept := if |out| <= limit then out else out[..limit];
            && Archived(f, limit, marker, s) == kept + (if |out| <= limit then [] else marker)
            && |Lines(NL, kept)| <= |Lines(NL, s)|
            && (i < |Lines(NL, kept)| ==> RedactionOf(c, Lines(NL, kept)[i], Lines(NL, s)[i]))
  {
    var out := Processed(line => RedactLine(c, line), s);
    StreamIsRedacted(c, s);
    if |out| > limit {
      FrontOfLines(out, limit);
    }
    hide Lines, Processed;
  }

  /** A redacted front, its last line cut at `q`, and more behind a newline, redacted again. */
  lemma CutProcessed(f: Bytes -> Bytes, front: Bytes, more: Bytes)
    requires AllFixed(f, Lines(NL, front))
    ensures var q := Partial(NL, front);
            Processed(f, front + ([NL] + more)) == Joined(NL, Lines(NL, front)) + ((f(q) + [NL]) + Processed(f, more))
  {
    var q, done := Partial(NL, front), Lines(NL, front);
    NothingInside(NL, front);
    LinesConcat(NL, front, [NL] + more);
    Associates(q, [NL], more);
    LineFirst(NL, q, more);
    RenderConcat(f, done, [q] + Lines(NL, more));
    RenderConcat(f, [q], Lines(NL, more));
    RenderSnoc(f, [], q);
    assert [] + [q] == [q] && Render(f, [q]) == f(q) + [NL];
    FixedRendersAsIs(f, done);
    var rest := if Partial(NL, more) == [] then [] else f(Partial(NL, more));
    Associates(f(q) + [NL], Render(f, Lines(NL, more)), rest);
    Associates(Joined(NL, done), (f(q) + [NL]) + Render(f, Lines(NL, more)), rest);
  }

  lemma StartsWith(q: Bytes, line: Bytes, more: Bytes)
    requires NL !in q
    ensures var z := (line + [NL]) + more; |q| <= |z| && z[..|q|] == q <==> q <= line
  {
    var z := (line + [NL]) + more;
    if |q| <= |line| {
      assert z[..|q|] == line[..|q|];
    } else if |q| <= |z| {
      assert z[..|q|][|line|] == NL;
    }
  }

  /** Cutting `a + z` where `a + q` ended gives `a + q` again exactly when `q` starts `line`. */
  lemma CutAgain(a: Bytes, q: Bytes, line: Bytes, more: Bytes, marker: Bytes)
    requires marker != [] && NL !in q
    ensures Cap(|a| + |q|, marker, a + ((line + [NL]) + more)) == (a + q) + marker <==> q <= line
  {
    var limit := |a| + |q|;
    var z := (line + [NL]) + more;
    StartsWith(q, line, more);
    if |a + z| > limit {
      assert (a + z)[..limit] == a + z[..|q|];
      assert ((a + z)[..limit] + marker)[..limit][|a|..] == z[..|q|] && ((a + q) + marker)[..limit][|a|..] == q;
    } else {
      assert |(a + q) + marker| > limit;
    }
  }

  /** Redacting twice what was not capped changes nothing. */
  lemma RedactionTwice(c: Codec, s: Bytes)
    requires RoundTrips(c)
    ensures var f := line => RedactLine(c, line); Processed(f, Processed(f, s)) == Processed(f, s)
  {
    RedactLineSettles(c);
    ProcessedTwice(line => RedactLine(c, line), s);
  }

  lemma CappedTwice(f: Bytes -> Bytes, limit: nat, text: Bytes, s: Bytes)
    requires Settles(f) && |Processed(f, s)| > limit
    ensures var marker, q := [NL] + text, Partial(NL, Processed(f, s)[..limit]);
            var file := Archived(f, limit, marker, s);
            Archived(f, limit, marker, file) == file <==> q <= f(q)
  {
    var out, marker := Processed(f, s), [NL] + text;
    var front := out[..limit];
    var a, q := Joined(NL, Lines(NL, front)), Partial(NL, front);
    FrontIsFixed(f, s, limit);
    CutProcessed(f, front, text);
    SplitAndJoin(NL, front);
    NothingInside(NL, front);
    assert |a| + |q| == limit;
    CutAgain(a, q, f(q), Processed(f, text), marker);
  }

  /** Main result: archiving an archive file again changes nothing exactly when the file was not capped, or
      redaction leaves the start of the line that the cap cut as it is. The marker starts a new line. */
  lemma ArchiveTwice(c: Codec, limit: nat, text: Bytes, s: Bytes)
    requires RoundTrips(c)
    ensures var f := line => RedactLine(c, line);
            var marker := [NL] + text;
            var file := Archived(f, limit, marker, s);
            var out := Processed(f, s);
            Archived(f, limit, marker, file) == file
            <==> |out| <= limit || (var q := Partial(NL, out[..limit]); q <= RedactLine(c, q))
  {
    var f := line => RedactLine(c, line);
    var out, marker := Processed(f, s), [NL] + text;
    RedactLineSettles(c);
    if |out| <= limit {
      RedactionTwice(c, s);
    } else {
      CappedTwice(f, limit, text, s);
    }
  }

  /** A codec of two texts: an object with a prompt in it, and the same object redacted. */
  function TwoTexts(plain: Bytes, masked: Bytes): Codec {
    var j := Object(map["prompt" := Null]);
    Codec(b => if b == plain then Some(j) else if b == masked then Some(Redact(j)) else None,
          k => if k == Redact(j) then Some(masked) else None)
  }

  lemma TwoTextsRoundTrip(plain: Bytes, masked: Bytes)
    requires NL !in masked && plain != masked
    ensures RoundTrips(TwoTexts(plain, masked))
    ensures RedactLine(TwoTexts(plain, masked), plain) == masked
  {
    RedactIsIdempotent(Object(map["prompt" := Null]));
  }

  lemma OneLine(f: Bytes -> Bytes, line: Bytes)
    requires NL !in line && line != []
    ensures Processed(f, line) == f(line)
  {
    NoMoreLines(NL, line);
    assert [] + f(line) == f(line);
  }

  /** A line that is an object with something behind it is archived as it stands; the cap can cut it behind the
      object, which a second pass then redacts. */
  lemma CutObjectIsRedactedLater(plain: Bytes, masked: Bytes, behind: Byte, text: Bytes)
    requires NL !in plain && NL !in masked && behind != NL
    requires !(plain <= masked) && masked != plain + [behind]
    ensures var c := TwoTexts(plain, masked);
            var f := line => RedactLine(c, line);
            var file := Archived(f, |plain|, [NL] + text, plain + [behind]);
            && RoundTrips(c)
            && file == plain + ([NL] + text)
            && Archived(f, |plain|, [NL] + text, file) != file
  {
    var c, line := TwoTexts(plain, masked), plain + [behind];
    var f := l => RedactLine(c, l);
    TwoTextsRoundTrip(plain, masked);
    OneLine(f, line);
    assert line[..|plain|] == plain && f(line) == line;
    hide Processed, Redact, RoundTrips;
    NoMoreLines(NL, plain);
    ArchiveTwice(c, |plain|, text, line);
  }
}
