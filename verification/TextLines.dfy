/** Splitting a sequence into terminated lines; `nl` is the terminator. */
module TextLines {
  /** The unterminated line at the end of `s`. */
  function Partial<T(==)>(nl: T, s: seq<T>): seq<T> {
    if s == [] || s[|s| - 1] == nl then [] else Partial(nl, s[..|s| - 1]) + [s[|s| - 1]]
  }

  /** The complete lines of `s`, without their terminators. */
  function Lines<T(==)>(nl: T, s: seq<T>): seq<seq<T>> {
    if s == [] then []
    else if s[|s| - 1] == nl then Lines(nl, s[..|s| - 1]) + [Partial(nl, s[..|s| - 1])]
    else Lines(nl, s[..|s| - 1])
  }

  lemma Associates<T>(a: seq<T>, b: seq<T>, c: seq<T>)
    ensures a + (b + c) == (a + b) + c
  {
  }

  lemma LinesSnoc<T>(nl: T, s: seq<T>, b: T)
    ensures Lines(nl, s + [b]) == if b == nl then Lines(nl, s) + [Partial(nl, s)] else Lines(nl, s)
    ensures Partial(nl, s + [b]) == if b == nl then [] else Partial(nl, s) + [b]
  {
    assert (s + [b])[..|s|] == s;
  }

  lemma {:induction false} NoMoreLines<T>(nl: T, left: seq<T>)
    requires nl !in left
    ensures Lines(nl, left) == [] && Partial(nl, left) == left
  {
    if left != [] {
      NoMoreLines(nl, left[..|left| - 1]);
    }
  }

  lemma {:induction false} NothingInside<T>(nl: T, s: seq<T>)
    ensures nl !in Partial(nl, s)
    ensures forall i :: 0 <= i < |Lines(nl, s)| ==> nl !in Lines(nl, s)[i]
  {
    if s != [] {
      NothingInside(nl, s[..|s| - 1]);
    }
  }

  lemma ConcatStep<T>(nl: T, s: seq<T>, t: seq<T>, b: T)
    requires Lines(nl, s + t) == Lines(nl, s) + Lines(nl, Partial(nl, s) + t)
    requires Partial(nl, s + t) == Partial(nl, Partial(nl, s) + t)
    ensures Lines(nl, (s + t) + [b]) == Lines(nl, s) + Lines(nl, (Partial(nl, s) + t) + [b])
    ensures Partial(nl, (s + t) + [b]) == Partial(nl, (Partial(nl, s) + t) + [b])
  {
    LinesSnoc(nl, s + t, b);
    LinesSnoc(nl, Partial(nl, s) + t, b);
    Associates(Lines(nl, s), Lines(nl, Partial(nl, s) + t), [Partial(nl, s + t)]);
  }

  /** Appending `t` to `s` is appending `t` to what `s` left unterminated. */
  lemma {:induction false} LinesConcat<T>(nl: T, s: seq<T>, t: seq<T>)
    ensures Lines(nl, s + t) == Lines(nl, s) + Lines(nl, Partial(nl, s) + t)
    ensures Partial(nl, s + t) == Partial(nl, Partial(nl, s) + t)
  {
    if t == [] {
      assert s + t == s && Partial(nl, s) + t == Partial(nl, s);
      NothingInside(nl, s);
      NoMoreLines(nl, Partial(nl, s));
    } else {
      var n := |t| - 1;
      LinesConcat(nl, s, t[..n]);
      ConcatStep(nl, s, t[..n], t[n]);
      assert t == t[..n] + [t[n]];
      Associates(s, t[..n], [t[n]]);
      Associates(Partial(nl, s), t[..n], [t[n]]);
    }
  }

  /** A line and its terminator in front of anything are read as that line first. */
  lemma LineFirst<T>(nl: T, line: seq<T>, rest: seq<T>)
    requires nl !in line
    ensures Lines(nl, (line + [nl]) + rest) == [line] + Lines(nl, rest)
    ensures Partial(nl, (line + [nl]) + rest) == Partial(nl, rest)
  {
    LinesSnoc(nl, line, nl);
    NoMoreLines(nl, line);
    assert [] + [line] == [line];
    LinesConcat(nl, line + [nl], rest);
    assert [] + rest == rest;
  }

  /** Putting the terminators back. */
  function Joined<T>(nl: T, lines: seq<seq<T>>): seq<T> {
    if lines == [] then [] else Joined(nl, lines[..|lines| - 1]) + (lines[|lines| - 1] + [nl])
  }

  /** Splitting loses nothing. */
  lemma {:induction false} SplitAndJoin<T>(nl: T, s: seq<T>)
    ensures Joined(nl, Lines(nl, s)) + Partial(nl, s) == s
  {
    if s != [] {
      var n := |s| - 1;
      SplitAndJoin(nl, s[..n]);
      assert s == s[..n] + [s[n]];
      var front, tail := Joined(nl, Lines(nl, s[..n])), Partial(nl, s[..n]);
      Associates(front, tail, [s[n]]);
      if s[n] == nl {
        assert Lines(nl, s)[..|Lines(nl, s)| - 1] == Lines(nl, s[..n]);
        assert Joined(nl, Lines(nl, s)) == front + (tail + [nl]);
      }
    }
  }

  lemma JoinedStep<T>(nl: T, front: seq<T>, last: seq<T>)
    requires nl !in last && Partial(nl, front) == []
    ensures Lines(nl, front + (last + [nl])) == Lines(nl, front) + [last]
    ensures Partial(nl, front + (last + [nl])) == []
  {
    LinesConcat(nl, front, last + [nl]);
    assert [] + (last + [nl]) == last + [nl];
    LinesSnoc(nl, last, nl);
    NoMoreLines(nl, last);
    assert [] + [last] == [last];
  }

  /** Joining lines and splitting again gives the same lines. */
  lemma {:induction false} LinesOfJoined<T>(nl: T, lines: seq<seq<T>>)
    requires forall i :: 0 <= i < |lines| ==> nl !in lines[i]
    ensures Lines(nl, Joined(nl, lines)) == lines && Partial(nl, Joined(nl, lines)) == []
  {
    if lines != [] {
      var n := |lines| - 1;
      LinesOfJoined(nl, lines[..n]);
      JoinedStep(nl, Joined(nl, lines[..n]), lines[n]);
      assert lines == lines[..n] + [lines[n]];
    }
  }
}
