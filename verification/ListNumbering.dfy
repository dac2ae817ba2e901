/**
List markers of a Word document (internal/fileconvert/convert_docx_numbering.go): the counters kept
across paragraphs, against the history of items they stand for (ECMA-376 Part 1, section 17.9).
*/
module ListNumbering {
  import opened Options

  const MAX_LEVEL := 8

  datatype Level = Level(start: int, fmt: string)

  /** numbering.xml once parsed: numId to abstractNumId, and that to its levels. */
  datatype Index = Index(numToAbs: map<string, string>, levels: map<string, map<int, Level>>)

  datatype ListKey = ListKey(numID: string, ilvl: int)

  function Definition(idx: Index, key: ListKey): Option<Level> {
    if key.numID !in idx.numToAbs then None
    else
      var abs := idx.numToAbs[key.numID];
      if abs in idx.levels && key.ilvl in idx.levels[abs] then Some(idx.levels[abs][key.ilvl]) else None
  }

  predicate Defined(idx: Index, key: ListKey) {
    Definition(idx, key).Some?
  }

  predicate Numbered(idx: Index, key: ListKey) {
    Defined(idx, key) && Definition(idx, key).value.fmt != "bullet"
  }

  // ---------------------------------------------------------------- the history specification

  /** An item at `a` restarts the numbering at `key`: it is defined, of the same list, shallower. */
  predicate Restarts(idx: Index, a: ListKey, key: ListKey) {
    Defined(idx, a) && a.numID == key.numID && a.ilvl < key.ilvl
  }

  /** The earlier items at `key` that are still counted: nothing has restarted it since. */
  ghost function Counted(idx: Index, items: seq<ListKey>, key: ListKey): set<int> {
    set j | 0 <= j < |items| && items[j] == key && forall m :: j < m < |items| ==> !Restarts(idx, items[m], key)
  }

  function Spaces(n: nat): string {
    if n == 0 then "" else " " + Spaces(n - 1)
  }

  function Indent(ilvl: int): string {
    Spaces(2 * (if ilvl < 0 then 0 else if ilvl > MAX_LEVEL then MAX_LEVEL else ilvl))
  }

  /** Two spaces a level, none below level 0 and none more beyond level 8. */
  lemma {:induction false} SpacesAre(n: nat)
    ensures |Spaces(n)| == n && forall i :: 0 <= i < n ==> Spaces(n)[i] == ' '
  {
    if n > 0 {
      SpacesAre(n - 1);
    }
  }

  lemma IndentIsClamped(ilvl: int)
    ensures forall i :: 0 <= i < |Indent(ilvl)| ==> Indent(ilvl)[i] == ' '
    ensures ilvl <= 0 ==> |Indent(ilvl)| == 0
    ensures 0 <= ilvl <= 8 ==> |Indent(ilvl)| == 2 * ilvl
    ensures ilvl >= 8 ==> |Indent(ilvl)| == 16
  {
    SpacesAre(|Indent(ilvl)|);
    SpacesAre(2 * (if ilvl < 0 then 0 else if ilvl > 8 then 8 else ilvl));
  }

  function Digits(n: nat): (s: string)
    ensures |s| > 0 && (forall i :: 0 <= i < |s| ==> '0' <= s[i] <= '9') && (s[0] == '0' ==> n == 0)
  {
    var last := [(n % 10) as char + '0'];
    if n < 10 then last else Digits(n / 10) + last
  }

  function Itoa(n: int): string {
    if n < 0 then "-" + Digits(-n) else Digits(n)
  }

  /** The marker the next item at `key` must get after `items`. */
  ghost function Expected(idx: Index, items: seq<ListKey>, key: ListKey): (string, bool) {
    match Definition(idx, key)
    case None => ("", false)
    case Some(level) =>
      if level.fmt == "bullet" then (Indent(key.ilvl) + "- ", true)
      else (Indent(key.ilvl) + Itoa(level.start + |Counted(idx, items, key)|) + ". ", true)
  }

  lemma CountedSnoc(idx: Index, items: seq<ListKey>, item: ListKey, key: ListKey)
    ensures Counted(idx, items + [item], key) ==
            if Restarts(idx, item, key) then {}
            else if item == key then Counted(idx, items, key) + {|items|}
            else Counted(idx, items, key)
  {
    var all := items + [item];
    assert all[|items|] == item;
    forall j
      ensures j in Counted(idx, all, key) <==>
              !Restarts(idx, item, key) && (j in Counted(idx, items, key) || (item == key && j == |items|))
    {
      if 0 <= j < |items| {
        assert all[j] == items[j];
        if j in Counted(idx, items, key) && !Restarts(idx, item, key) {
          assert forall m :: j < m < |all| ==> !Restarts(idx, all[m], key);
        }
        if j in Counted(idx, all, key) {
          assert !Restarts(idx, all[|items|], key);
          assert forall m :: j < m < |items| ==> all[m] == items[m];
        }
      }
    }
  }

  lemma {:induction false} SameCount(idx: Index, before: seq<ListKey>, item: ListKey, after: seq<ListKey>, key: ListKey)
    requires !Defined(idx, item) && Defined(idx, key)
    ensures |Counted(idx, before + [item] + after, key)| == |Counted(idx, before + after, key)|
  {
    if after == [] {
      assert before + [item] + after == before + [item] && before + after == before;
      CountedSnoc(idx, before, item, key);
    } else {
      var n := |after| - 1;
      var last := after[n];
      SameCount(idx, before, item, after[..n], key);
      assert before + [item] + after == (before + [item] + after[..n]) + [last];
      assert before + after == (before + after[..n]) + [last];
      CountedSnoc(idx, before + [item] + after[..n], last, key);
      CountedSnoc(idx, before + after[..n], last, key);
      var xs, ys := Counted(idx, before + [item] + after[..n], key), Counted(idx, before + after[..n], key);
      assert |before + [item] + after[..n]| !in xs && |before + after[..n]| !in ys;
    }
  }

  /** An item without a definition is invisible to every later number. */
  lemma UndefinedChangesNothing(idx: Index, before: seq<ListKey>, item: ListKey, after: seq<ListKey>, key: ListKey)
    requires !Defined(idx, item) && Defined(idx, key)
    ensures Expected(idx, before + [item] + after, key) == Expected(idx, before + after, key)
  {
    SameCount(idx, before, item, after, key);
  }

  // ---------------------------------------------------------------- rendering

  function Value(s: string): int {
    if s == [] then 0
    else Value(s[..|s| - 1]) * 10 + (s[|s| - 1] as int - '0' as int)
  }

  function Atoi(s: string): int {
    if s != [] && s[0] == '-' then -Value(s[1..]) else Value(s)
  }

  lemma {:induction false} DigitsReadBack(n: nat)
    ensures Value(Digits(n)) == n
  {
    var s := Digits(n);
    if n < 10 {
      assert s[..0] == [];
    } else {
      DigitsReadBack(n / 10);
      assert s[..|s| - 1] == Digits(n / 10);
    }
  }

  /** The number in a marker can be read back, so markers differ whenever their numbers do. */
  lemma NumberReadsBack(n: int)
    ensures Atoi(Itoa(n)) == n
  {
    if n < 0 {
      DigitsReadBack(-n);
      assert Itoa(n)[1..] == Digits(-n);
    } else {
      DigitsReadBack(n);
    }
  }

  // ---------------------------------------------------------------- the counters

  /** A counter is open exactly where an item is still counted, and stands at its number. */
  ghost predicate Matches(idx: Index, counters: map<ListKey, int>, items: seq<ListKey>) {
    forall key ::
      && (key in counters <==> Numbered(idx, key) && Counted(idx, items, key) != {})
      && (key in counters ==> counters[key] == Definition(idx, key).value.start + |Counted(idx, items, key)| - 1)
  }

  function Closed(counters: map<ListKey, int>, key: ListKey): map<ListKey, int> {
    map k | k in counters && !(k.numID == key.numID && k.ilvl > key.ilvl) :: counters[k]
  }

  /** The counters after marking an item. */
  function Marked(idx: Index, counters: map<ListKey, int>, key: ListKey): map<ListKey, int> {
    if !Defined(idx, key) then counters
    else if !Numbered(idx, key) then Closed(counters, key)
    else Closed(counters, key)[key := if key in counters then counters[key] + 1 else Definition(idx, key).value.start]
  }

  lemma StepMatches(idx: Index, counters: map<ListKey, int>, items: seq<ListKey>, key: ListKey)
    requires Matches(idx, counters, items)
    ensures Matches(idx, Marked(idx, counters, key), items + [key])
    ensures Numbered(idx, key) ==>
              Marked(idx, counters, key)[key] == Definition(idx, key).value.start + |Counted(idx, items, key)|
  {
    var after := Marked(idx, counters, key);
    assert |items| !in Counted(idx, items, key);
    forall k
      ensures k in after <==> Numbered(idx, k) && Counted(idx, items + [key], k) != {}
      ensures k in after ==> after[k] == Definition(idx, k).value.start + |Counted(idx, items + [key], k)| - 1
    {
      CountedSnoc(idx, items, key, k);
    }
  }

  /** The marker for an item, read off the counters. */
  function MarkerText(idx: Index, counters: map<ListKey, int>, key: ListKey): (string, bool) {
    if !Defined(idx, key) then ("", false)
    else if !Numbered(idx, key) then (Indent(key.ilvl) + "- ", true)
    else (Indent(key.ilvl) + Itoa(Marked(idx, counters, key)[key]) + ". ", true)
  }

  function CountersAfter(idx: Index, items: seq<ListKey>): map<ListKey, int> {
    if items == [] then map[]
    else Marked(idx, CountersAfter(idx, items[..|items| - 1]), items[|items| - 1])
  }

  lemma {:induction false} CountersMatch(idx: Index, items: seq<ListKey>)
    ensures Matches(idx, CountersAfter(idx, items), items)
  {
    if items != [] {
      var n := |items| - 1;
      CountersMatch(idx, items[..n]);
      StepMatches(idx, CountersAfter(idx, items[..n]), items[..n], items[n]);
      assert items[..n] + [items[n]] == items;
    }
  }

  /** The text read off the counters is the one the history calls for. */
  lemma MarkersMatchHistory(idx: Index, items: seq<ListKey>, key: ListKey)
    ensures MarkerText(idx, CountersAfter(idx, items), key) == Expected(idx, items, key)
  {
    CountersMatch(idx, items);
    StepMatches(idx, CountersAfter(idx, items), items, key);
  }

  lemma OneMore(idx: Index, items: seq<ListKey>, i: nat)
    requires i < |items|
    ensures CountersAfter(idx, items[..i + 1]) == Marked(idx, CountersAfter(idx, items[..i]), items[i])
    ensures MarkerText(idx, CountersAfter(idx, items[..i]), items[i]) == Expected(idx, items[..i], items[i])
  {
    assert items[..i + 1][..i] == items[..i];
    MarkersMatchHistory(idx, items[..i], items[i]);
  }

  class ListState {
    var counters: map<ListKey, int>

    constructor ()
      ensures counters == map[]
    {
      counters := map[];
    }

    /** The deletion loop: deeper levels of the same list restart. */
    method CloseDeeper(numID: string, ilvl: int)
      modifies this
      ensures counters == Closed(old(counters), ListKey(numID, ilvl))
      ensures forall k :: k in counters <==> k in old(counters) && (k.numID == numID ==> k.ilvl <= ilvl)
      ensures forall k :: k in counters ==> counters[k] == old(counters)[k]
    {
      var todo := counters.Keys;
      while todo != {}
        invariant todo <= counters.Keys <= old(counters).Keys
        invariant forall k :: k in counters ==> counters[k] == old(counters)[k]
        invariant forall k :: k in old(counters) && k !in todo ==>
                    (k in counters <==> !(k.numID == numID && k.ilvl > ilvl))
        decreases |todo|
      {
        var k :| k in todo;
        if k.numID == numID && k.ilvl > ilvl {
          counters := counters - {k};
        }
        todo := todo - {k};
      }
    }

    method Marker(idx: Index, numID: string, ilvl: int) returns (prefix: string, ok: bool)
      modifies this
      ensures counters == Marked(idx, old(counters), ListKey(numID, ilvl))
      ensures (prefix, ok) == MarkerText(idx, old(counters), ListKey(numID, ilvl))
      ensures ok <==> numID in idx.numToAbs && idx.numToAbs[numID] in idx.levels
                      && ilvl in idx.levels[idx.numToAbs[numID]]
      ensures !ok ==> prefix == "" && counters == old(counters)
      ensures forall k :: k != ListKey(numID, ilvl) ==>
                (k in counters <==> k in old(counters) && (ok && k.numID == numID ==> k.ilvl <= ilvl))
                && (k in counters ==> counters[k] == old(counters)[k])
      ensures ok && idx.levels[idx.numToAbs[numID]][ilvl].fmt == "bullet" ==>
                prefix == Indent(ilvl) + "- " && forall k :: k in counters ==> k in old(counters)
      ensures ok && idx.levels[idx.numToAbs[numID]][ilvl].fmt != "bullet" ==>
                var k := ListKey(numID, ilvl);
                && k in counters
                && counters[k] == (if k in old(counters) then old(counters)[k] + 1
                                   else idx.levels[idx.numToAbs[numID]][ilvl].start)
                && prefix == Indent(ilvl) + Itoa(counters[k]) + ". "
    {
      var indent := Indent(ilvl);
      if numID !in idx.numToAbs {
        return "", false;
      }
      var absID := idx.numToAbs[numID];
      if absID !in idx.levels || ilvl !in idx.levels[absID] {
        return "", false;
      }
      var level := idx.levels[absID][ilvl];
      CloseDeeper(numID, ilvl);
      if level.fmt == "bullet" {
        return indent + "- ", true;
      }
      var k := ListKey(numID, ilvl);
      if k !in counters {
        counters := counters[k := level.start];
      } else {
        counters := counters[k := counters[k] + 1];
      }
      return indent + Itoa(counters[k]) + ". ", true;
    }
  }

  /** The markers so far are the ones the history calls for. */
  ghost predicate AsExpected(idx: Index, items: seq<ListKey>, markers: seq<(string, bool)>) {
    |markers| <= |items| && forall i :: 0 <= i < |markers| ==> markers[i] == Expected(idx, items[..i], items[i])
  }

  /** Main result: over any sequence of items on a fixed index, each marker is the one its history
      calls for: the start value plus the number of items still counted at its key. */
  method MarkAll(idx: Index, items: seq<ListKey>) returns (markers: seq<(string, bool)>)
    ensures |markers| == |items|
    ensures AsExpected(idx, items, markers)
  {
    var state := new ListState();
    markers := [];
    for i := 0 to |items|
      invariant fresh(state) && state.counters == CountersAfter(idx, items[..i])
      invariant |markers| == i
      invariant AsExpected(idx, items, markers)
    {
      OneMore(idx, items, i);
      var prefix, ok := state.Marker(idx, items[i].numID, items[i].ilvl);
      markers := markers + [(prefix, ok)];
    }
  }
}
