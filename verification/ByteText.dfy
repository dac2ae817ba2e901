/** Byte strings and their newlines. */
module ByteText {
  type Byte = i: int | 0 <= i < 256

  type Bytes = seq<Byte>

  const NL: Byte := 10
  const CR: Byte := 13

  /** Where the first newline is, or the length if there is none. */
  function NewlineAt(s: Bytes): (k: nat)
    ensures k <= |s|
    ensures k < |s| ==> s[k] == NL
  {
    if s == [] || s[0] == NL then 0 else NewlineAt(s[1..]) + 1
  }

  lemma {:induction false} NoneBefore(s: Bytes, i: nat)
    requires i < NewlineAt(s)
    ensures s[i] != NL
  {
    if i > 0 {
      NoneBefore(s[1..], i - 1);
    }
  }

  lemma {:induction false} NoNewlineIn(s: Bytes)
    ensures NewlineAt(s) == |s| <==> NL !in s
  {
    if s != [] {
      NoNewlineIn(s[1..]);
      assert s == [s[0]] + s[1..];
    }
  }

  lemma FrontHasNoNewline(s: Bytes)
    ensures NL !in s[..NewlineAt(s)]
  {
    forall i | 0 <= i < NewlineAt(s)
      ensures s[..NewlineAt(s)][i] != NL
    {
      NoneBefore(s, i);
    }
  }

  lemma {:induction false} NewlineAfter(s: Bytes, m: nat)
    requires m <= NewlineAt(s)
    ensures NewlineAt(s[m..]) == NewlineAt(s) - m
  {
    if m > 0 {
      NewlineAfter(s[1..], m - 1);
      assert s[1..][m - 1..] == s[m..];
    } else {
      assert s[m..] == s;
    }
  }

  lemma {:induction false} NewlineInConcat(s: Bytes, t: Bytes)
    ensures NewlineAt(s + t) == if NewlineAt(s) < |s| then NewlineAt(s) else |s| + NewlineAt(t)
  {
    if s == [] {
      assert s + t == t;
    } else {
      assert (s + t)[1..] == s[1..] + t;
      NewlineInConcat(s[1..], t);
    }
  }
}
