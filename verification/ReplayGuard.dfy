/**
The replay guard (internal/feishufront/dedup.go): a set of ids with a TTL and an optional
entry cap. The class is the guard as the program runs it; `Guard` and the step relation
describe the same calls on values, and the lemmas compare whole runs with a plain history.
Clock values are integers (nanoseconds).
*/
module ReplayGuard {
  import opened Options

  datatype Guard = Guard(seen: map<string, int>, ttl: int, maxEntries: int)

  /** Add's own expiry test: a TTL of zero or less never expires anything. */
  predicate Expired(g: Guard, t: int, now: int) {
    g.ttl > 0 && now - t > g.ttl
  }

  /** What Add answers for `id`. */
  predicate Accepts(g: Guard, id: string, now: int) {
    id == "" || id !in g.seen || Expired(g, g.seen[id], now)
  }

  ghost predicate IsOldest(seen: map<string, int>, k: string) {
    k in seen && forall j :: j in seen ==> seen[k] <= seen[j]
  }

  /** `room` is what is left of the set once the cap has been enforced. Go iterates the map in
      no fixed order, so any entry with a least timestamp may be the one that goes. */
  ghost predicate MakesRoom(g: Guard, room: map<string, int>) {
    if g.maxEntries > 0 && |g.seen| >= g.maxEntries then
      exists k :: IsOldest(g.seen, k) && room == g.seen - {k}
    else
      room == g.seen
  }

  ghost predicate AddStep(g: Guard, id: string, now: int, accepted: bool, g': Guard) {
    && accepted == Accepts(g, id, now)
    && if id == "" || !accepted then g' == g
       else if id in g.seen then g' == g.(seen := g.seen[id := now])
       else exists room :: MakesRoom(g, room) && g' == g.(seen := room[id := now])
  }

  function Swept(g: Guard, now: int): map<string, int> {
    map k | k in g.seen && g.seen[k] >= now - g.ttl :: g.seen[k]
  }

  class DedupSet {
    var seen: map<string, int>
    var ttl: int
    var maxEntries: int

    ghost function View(): Guard
      reads this
    {
      Guard(seen, ttl, maxEntries)
    }

    constructor (ttl: int, maxEntries: int)
      ensures View() == Guard(map[], ttl, maxEntries)
    {
      this.seen := map[];
      this.ttl := ttl;
      this.maxEntries := maxEntries;
    }

    method Add(id: string, now: int) returns (accepted: bool)
      modifies this`seen
      ensures AddStep(old(View()), id, now, accepted, View())
      ensures accepted <==> id == "" || id !in old(seen) || (ttl > 0 && now - old(seen)[id] > ttl)
      ensures id == "" || !accepted ==> seen == old(seen)
      ensures id != "" && accepted && (id in old(seen) || maxEntries <= 0 || |old(seen)| < maxEntries) ==>
                seen == old(seen)[id := now]
      ensures id != "" && id !in old(seen) && |old(seen)| >= maxEntries > 0 ==>
                exists k :: k in old(seen) && (forall j :: j in old(seen) ==> old(seen)[k] <= old(seen)[j])
                            && seen == (old(seen) - {k})[id := now]
    {
      if id == "" {
        return true;
      }
      if id in seen {
        if ttl > 0 && now - seen[id] > ttl {
          seen := seen[id := now];
          return true;
        }
        return false;
      }
      ghost var before := View();
      if maxEntries > 0 && |seen| >= maxEntries {
        var oldestKey, oldestTime, first := "", 0, true;
        var todo := seen.Keys;
        while todo != {}
          invariant todo <= seen.Keys
          invariant first ==> todo == seen.Keys
          invariant !first ==> oldestKey in seen && seen[oldestKey] == oldestTime
          invariant forall j :: j in seen && j !in todo ==> oldestTime <= seen[j]
          decreases |todo|
        {
          var k :| k in todo;
          if first || seen[k] < oldestTime {
            oldestKey, oldestTime, first := k, seen[k], false;
          }
          todo := todo - {k};
        }
        assert first ==> |seen.Keys| == 0;
        assert IsOldest(seen, oldestKey);
        seen := seen - {oldestKey};
      }
      assert MakesRoom(before, seen);
      seen := seen[id := now];
      return true;
    }

    method Delete(id: string)
      modifies this`seen
      ensures seen == if id == "" then old(seen) else old(seen) - {id}
    {
      if id == "" {
        return;
      }
      seen := seen - {id};
    }

    /** Removes every entry older than the TTL and reports how many went. */
    method Prune(now: int) returns (n: nat)
      modifies this`seen
      ensures seen == Swept(old(View()), now)
      ensures n == |old(seen)| - |seen|
      ensures forall k :: k in seen <==> k in old(seen) && now - old(seen)[k] <= ttl
      ensures forall k :: k in seen ==> seen[k] == old(seen)[k]
    {
      var cutoff := now - ttl;
      var todo := seen.Keys;
      n := 0;
      while todo != {}
        invariant todo <= seen.Keys <= old(seen).Keys
        invariant forall k :: k in seen ==> seen[k] == old(seen)[k]
        invariant forall k :: k in old(seen) && k !in todo ==> (k in seen <==> old(seen)[k] >= cutoff)
        invariant n + |seen| == |old(seen)|
        decreases |todo|
      {
        var k :| k in todo;
        if seen[k] < cutoff {
          assert seen.Keys == (seen - {k}).Keys + {k};
          seen := seen - {k};
          n := n + 1;
        }
        todo := todo - {k};
      }
    }

    method Configure(ttl: int, maxEntries: int)
      modifies this
      ensures View() == old(View()).(ttl := ttl, maxEntries := maxEntries)
    {
      this.ttl := ttl;
      this.maxEntries := maxEntries;
    }
  }

  // ---------------------------------------------------------------- runs

  datatype Event =
    | Added(id: string, now: int, accepted: bool)
    | Deleted(id: string)
    | Pruned(now: int)

  ghost predicate Step(g: Guard, e: Event, g': Guard) {
    match e
    case Added(id, now, accepted) => AddStep(g, id, now, accepted, g')
    case Deleted(id) => g' == g.(seen := if id == "" then g.seen else g.seen - {id})
    case Pruned(now) => g' == g.(seen := Swept(g, now))
  }

  /** A run from the empty set: gs[i] is the guard before event i. */
  ghost predicate IsRun(gs: seq<Guard>, es: seq<Event>) {
    && |gs| == |es| + 1
    && if es == [] then gs[0].seen == map[]
       else IsRun(gs[..|es|], es[..|es| - 1]) && Step(gs[|es| - 1], es[|es| - 1], gs[|es|])
  }

  predicate Timed(e: Event) {
    !e.Deleted?
  }

  /** No event of `es` happened after `later`. */
  ghost predicate NotAfter(es: seq<Event>, later: int) {
    forall i :: 0 <= i < |es| && Timed(es[i]) ==> es[i].now <= later
  }

  /** The clock advances between any two additions or sweeps. */
  ghost predicate Ticking(es: seq<Event>) {
    es == [] ||
    (var last := es[|es| - 1];
     Ticking(es[..|es| - 1]) && (Timed(last) ==> NotAfter(es[..|es| - 1], last.now - 1)))
  }

  /** The plain history: when was `id` last accepted and not deleted since? */
  function LastRecord(es: seq<Event>, id: string): Option<int> {
    if es == [] then None
    else
      var e := es[|es| - 1];
      if e.Added? && e.accepted && e.id == id then Some(e.now)
      else if e.Deleted? && e.id == id then None
      else LastRecord(es[..|es| - 1], id)
  }

  /** The other ids accepted since `id` was last recorded. */
  function AcceptedSince(es: seq<Event>, id: string): (others: set<string>)
    ensures "" !in others
  {
    if es == [] then {}
    else
      var e := es[|es| - 1];
      if e.Added? && e.accepted && e.id == id then {}
      else if e.Added? && e.accepted && e.id != "" then AcceptedSince(es[..|es| - 1], id) + {e.id}
      else AcceptedSince(es[..|es| - 1], id)
  }

  /** Those of them not deleted again. */
  function LiveSince(es: seq<Event>, id: string): (others: set<string>)
    ensures others <= AcceptedSince(es, id)
  {
    if es == [] then {}
    else
      var e := es[|es| - 1];
      var before := LiveSince(es[..|es| - 1], id);
      if e.Added? && e.accepted && e.id == id then {}
      else if e.Added? && e.accepted && e.id != "" then before + {e.id}
      else if e.Deleted? then before - {e.id}
      else before
  }

  /** The most there ever were at once since `id` was last recorded. */
  function Peak(es: seq<Event>, id: string): (n: nat)
    ensures n >= |LiveSince(es, id)|
  {
    if es == [] then 0
    else
      var e := es[|es| - 1];
      var before, others := Peak(es[..|es| - 1], id), LiveSince(es, id);
      if e.Added? && e.accepted && e.id == id then 0
      else if before < |others| then |others|
      else before
  }

  lemma {:induction false} ConfigFixed(gs: seq<Guard>, es: seq<Event>)
    requires IsRun(gs, es)
    ensures gs[|es|].ttl == gs[0].ttl && gs[|es|].maxEntries == gs[0].maxEntries
  {
    if es != [] {
      ConfigFixed(gs[..|es|], es[..|es| - 1]);
    }
  }

  /** Whatever is in the set is justified by the history: it carries the time of its last record. */
  lemma {:induction false} EntriesAreRecords(gs: seq<Guard>, es: seq<Event>, id: string)
    requires IsRun(gs, es)
    requires id in gs[|es|].seen
    ensures id != "" && LastRecord(es, id) == Some(gs[|es|].seen[id])
  {
    var n := |es| - 1;
    if id in gs[n].seen {
      EntriesAreRecords(gs[..n + 1], es[..n], id);
    }
  }

  // ---------------------------------------------------------------- TTL only

  /** In TTL-only mode an id that is recorded but no longer in the set has outlived its TTL. */
  lemma {:induction false} MissingMeansExpired(gs: seq<Guard>, es: seq<Event>, id: string, later: int)
    requires IsRun(gs, es) && NotAfter(es, later)
    requires gs[0].maxEntries <= 0
    requires id != "" && LastRecord(es, id).Some?
    ensures id in gs[|es|].seen || later - LastRecord(es, id).value > gs[0].ttl
  {
    var n := |es| - 1;
    var g, e := gs[n], es[n];
    ConfigFixed(gs[..n + 1], es[..n]);
    if e.Added? && e.accepted && e.id == id {
    } else {
      MissingMeansExpired(gs[..n + 1], es[..n], id, later);
      if id in g.seen {
        EntriesAreRecords(gs[..n + 1], es[..n], id);
      }
    }
  }

  lemma {:induction false} RunPrefix(gs: seq<Guard>, es: seq<Event>, i: nat)
    requires IsRun(gs, es) && i <= |es|
    ensures IsRun(gs[..i + 1], es[..i])
    ensures i < |es| ==> Step(gs[i], es[i], gs[i + 1])
  {
    var n := |es| - 1;
    if i == |es| {
      assert gs[..i + 1] == gs && es[..i] == es;
    } else {
      RunPrefix(gs[..n + 1], es[..n], i);
      assert gs[..n + 1][..i + 1] == gs[..i + 1] && es[..n][..i] == es[..i];
    }
  }

  /**
  Main result, TTL-only mode: under any mix of Add, Delete and Prune with a clock that never
  steps back, Add says "seen" exactly when the last record of the id is at most one TTL old.
  LastRecord does not look at prunes, so the answer is that of a history nobody ever prunes.
  */
  lemma TtlOnlyAnswersAreHistory(gs: seq<Guard>, es: seq<Event>, i: nat)
    requires IsRun(gs, es) && gs[0].ttl > 0 && gs[0].maxEntries <= 0
    requires i < |es| && es[i].Added? && es[i].id != "" && NotAfter(es[..i], es[i].now)
    ensures !es[i].accepted <==>
            && LastRecord(es[..i], es[i].id).Some?
            && es[i].now - LastRecord(es[..i], es[i].id).value <= gs[0].ttl
  {
    var hs, h, id, now := gs[..i + 1], es[..i], es[i].id, es[i].now;
    RunPrefix(gs, es, i);
    ConfigFixed(hs, h);
    if id in gs[i].seen {
      EntriesAreRecords(hs, h, id);
    } else if LastRecord(h, id).Some? {
      MissingMeansExpired(hs, h, id, now);
    }
  }

  // ---------------------------------------------------------------- capped mode

  /** What an accepted addition leaves of the old entries. */
  lemma RoomMade(g: Guard, e: Event, g': Guard) returns (room: map<string, int>)
    requires Step(g, e, g') && e.Added? && e.accepted && e.id != ""
    ensures g'.seen == room[e.id := e.now] && room.Keys <= g.seen.Keys
    ensures forall k :: k in room ==> room[k] == g.seen[k]
    ensures room != g.seen ==>
              && e.id !in g.seen && 0 < g.maxEntries <= |g.seen| && |room| == |g.seen| - 1
              && exists k :: IsOldest(g.seen, k) && room == g.seen - {k}
    ensures room == g.seen ==> e.id in g.seen || g.maxEntries <= 0 || |g.seen| < g.maxEntries
  {
    if e.id in g.seen {
      room := g.seen;
    } else {
      room :| MakesRoom(g, room) && g' == g.(seen := room[e.id := e.now]);
      if g.maxEntries > 0 && |g.seen| >= g.maxEntries {
        var k :| IsOldest(g.seen, k) && room == g.seen - {k};
        assert g.seen.Keys == room.Keys + {k};
      }
    }
  }

  lemma SubsetSize(a: set<string>, b: set<string>)
    requires a <= b
    ensures |a| <= |b|
  {
    assert b == a + (b - a);
  }

  lemma StepKeepsCap(g: Guard, e: Event, g': Guard)
    requires Step(g, e, g') && g.maxEntries > 0 && |g.seen| <= g.maxEntries
    ensures |g'.seen| <= g.maxEntries
  {
    if e.Added? && e.id != "" && e.accepted {
      var room := RoomMade(g, e, g');
      if e.id in g.seen {
        assert g'.seen.Keys == g.seen.Keys;
      } else {
        assert g'.seen.Keys == room.Keys + {e.id};
      }
    } else {
      SubsetSize(g'.seen.Keys, g.seen.Keys);
    }
  }

  lemma {:induction false} SizeWithinCap(gs: seq<Guard>, es: seq<Event>)
    requires IsRun(gs, es) && gs[0].maxEntries > 0
    ensures |gs[|es|].seen| <= gs[0].maxEntries
  {
    if es != [] {
      var n := |es| - 1;
      SizeWithinCap(gs[..n + 1], es[..n]);
      ConfigFixed(gs[..n + 1], es[..n]);
      StepKeepsCap(gs[n], es[n], gs[n + 1]);
    }
  }

  /** A refusal is always backed by a record that has not expired, in every mode. */
  lemma RefusalIsJustified(gs: seq<Guard>, es: seq<Event>, i: nat)
    requires IsRun(gs, es) && i < |es| && es[i].Added? && !es[i].accepted
    ensures LastRecord(es[..i], es[i].id).Some?
    ensures gs[0].ttl > 0 ==> es[i].now - LastRecord(es[..i], es[i].id).value <= gs[0].ttl
  {
    RunPrefix(gs, es, i);
    ConfigFixed(gs[..i + 1], es[..i]);
    EntriesAreRecords(gs[..i + 1], es[..i], es[i].id);
  }

  lemma {:induction false} RecordTime(es: seq<Event>, id: string) returns (k: nat)
    requires LastRecord(es, id).Some?
    ensures k < |es| && es[k].Added? && es[k].accepted && es[k].id == id
    ensures es[k].now == LastRecord(es, id).value
  {
    var n := |es| - 1;
    if es[n].Added? && es[n].accepted && es[n].id == id {
      k := n;
    } else {
      k := RecordTime(es[..n], id);
    }
  }

  lemma {:induction false} TickingPrefix(es: seq<Event>, i: nat)
    requires Ticking(es) && i <= |es|
    ensures Ticking(es[..i])
    ensures i < |es| && Timed(es[i]) ==> NotAfter(es[..i], es[i].now - 1)
  {
    var n := |es| - 1;
    if i == |es| {
      assert es[..i] == es;
    } else {
      TickingPrefix(es[..n], i);
      assert es[..n][..i] == es[..i];
    }
  }

  /** Two entries never share a timestamp. */
  lemma DistinctTimes(gs: seq<Guard>, es: seq<Event>, x: string, y: string)
    requires IsRun(gs, es) && Ticking(es)
    requires x != y && x in gs[|es|].seen && y in gs[|es|].seen
    ensures gs[|es|].seen[x] != gs[|es|].seen[y]
  {
    EntriesAreRecords(gs, es, x);
    EntriesAreRecords(gs, es, y);
    var j := RecordTime(es, x);
    var k := RecordTime(es, y);
    TickingPrefix(es, j);
    TickingPrefix(es, k);
    if j < k {
      assert es[..k][j].now < es[k].now;
    } else {
      assert es[..j][k].now < es[j].now;
    }
  }

  /** An entry a step did not write was there before with the same time. */
  lemma KeptEntry(g: Guard, e: Event, g': Guard, id: string)
    requires Step(g, e, g') && id in g'.seen && !(e.Added? && e.accepted && e.id == id)
    ensures id in g.seen && g.seen[id] == g'.seen[id]
  {
    if e.Added? && e.accepted && e.id != "" {
      var room := RoomMade(g, e, g');
    }
  }

  /** The entries recorded after that of `id`. */
  function Younger(seen: map<string, int>, id: string): set<string>
    requires id in seen
  {
    set x | x in seen && seen[x] > seen[id]
  }

  /** Every entry is older than the time of the next addition. */
  lemma EntriesAreOlder(gs: seq<Guard>, es: seq<Event>, now: int)
    requires IsRun(gs, es) && NotAfter(es, now - 1)
    ensures forall x :: x in gs[|es|].seen ==> gs[|es|].seen[x] < now
  {
    forall x | x in gs[|es|].seen ensures gs[|es|].seen[x] < now {
      EntriesAreRecords(gs, es, x);
      var k := RecordTime(es, x);
    }
  }

  /** What is known of `id` while its record is live: the set holds it as long as the pressure stayed below
      the cap, and with it exactly the others that make the pressure. */
  ghost predicate Pressed(g: Guard, es: seq<Event>, id: string) {
    && (id in g.seen <==> Peak(es, id) < g.maxEntries)
    && (id in g.seen ==> LiveSince(es, id) == Younger(g.seen, id))
  }

  /** The step that records `id`. */
  lemma RecordedIsPressed(g: Guard, e: Event, g': Guard, es: seq<Event>, id: string)
    requires es != [] && es[|es| - 1] == e && Step(g, e, g') && g.maxEntries > 0
    requires e.Added? && e.accepted && e.id == id != "" && forall x :: x in g.seen ==> g.seen[x] < e.now
    ensures Pressed(g', es, id)
  {
    var room := RoomMade(g, e, g');
  }

  /** A step that adds nothing, taken while `id` is in the set and alive, and not its deletion. */
  lemma KeptIsPressed(g: Guard, e: Event, g': Guard, es: seq<Event>, id: string)
    requires es != [] && es[|es| - 1] == e && Step(g, e, g') && Pressed(g, es[..|es| - 1], id)
    requires id in g.seen && e != Deleted(id) && "" !in g.seen && id != ""
    requires e.Added? ==> !e.accepted || e.id == ""
    requires e.Pruned? ==> e.now - g.seen[id] <= g.ttl
    ensures Pressed(g', es, id)
  {
    var before := es[..|es| - 1];
    if e.Deleted? {
      assert Younger(g'.seen, id) == Younger(g.seen, id) - {e.id};
      SubsetSize(LiveSince(es, id), LiveSince(before, id));
    } else {
      assert Younger(g'.seen, id) == Younger(g.seen, id);
    }
  }

  /** An `id` that was pushed out comes back only with a record. */
  lemma StaysOut(g: Guard, e: Event, g': Guard, es: seq<Event>, id: string)
    requires es != [] && es[|es| - 1] == e && Step(g, e, g') && Pressed(g, es[..|es| - 1], id)
    requires id !in g.seen && !(e.Added? && e.accepted && e.id == id) && g'.maxEntries == g.maxEntries
    ensures Pressed(g', es, id)
  {
    if id in g'.seen {
      KeptEntry(g, e, g', id);
    }
  }

  lemma YoungerAfterJoin(g: Guard, e: Event, g': Guard, id: string)
    requires Step(g, e, g') && e.Added? && e.accepted && e.id != "" && e.id != id && id in g.seen && id in g'.seen
    requires forall x :: x in g.seen ==> g.seen[x] < e.now
    ensures Younger(g'.seen, id) == Younger(g.seen, id) + {e.id} && g'.maxEntries == g.maxEntries
  {
    var room := RoomMade(g, e, g');
  }

  /** An addition that leaves `id` in the set. */
  lemma JoinedIsPressed(g: Guard, e: Event, g': Guard, es: seq<Event>, id: string)
    requires es != [] && es[|es| - 1] == e && Step(g, e, g') && Pressed(g, es[..|es| - 1], id)
    requires e.Added? && e.accepted && e.id != "" && e.id != id && id in g.seen && id in g'.seen
    requires (forall x :: x in g.seen ==> g.seen[x] < e.now) && |g'.seen| <= g'.maxEntries
    ensures Pressed(g', es, id)
  {
    YoungerAfterJoin(g, e, g', id);
    hide Step;
    SubsetSize(Younger(g'.seen, id), g'.seen.Keys - {id});
    assert g'.seen.Keys == (g'.seen.Keys - {id}) + {id};
  }

  lemma YoungerWhenPushedOut(g: Guard, e: Event, g': Guard, id: string)
    requires Step(g, e, g') && e.Added? && e.accepted && e.id != "" && e.id != id && id in g.seen && id !in g'.seen
    requires forall x :: x in g.seen && x != id ==> g.seen[x] != g.seen[id]
    ensures Younger(g.seen, id) + {id} == g.seen.Keys && e.id !in g.seen
    ensures 0 < g.maxEntries <= |g.seen| && g'.maxEntries == g.maxEntries
  {
    var room := RoomMade(g, e, g');
    var k :| IsOldest(g.seen, k) && room == g.seen - {k};
    assert k == id;
  }

  /** An addition that pushes `id` out. */
  lemma PushedOutIsPressed(g: Guard, e: Event, g': Guard, es: seq<Event>, id: string)
    requires es != [] && es[|es| - 1] == e && Step(g, e, g') && Pressed(g, es[..|es| - 1], id)
    requires e.Added? && e.accepted && e.id != "" && e.id != id && id in g.seen && id !in g'.seen
    requires forall x :: x in g.seen && x != id ==> g.seen[x] != g.seen[id]
    ensures Pressed(g', es, id)
  {
    YoungerWhenPushedOut(g, e, g', id);
    hide Step;
    assert |g.seen| == |g.seen.Keys|;
    assert e.id !in Younger(g.seen, id);
  }

  /** A step while the record of `id` is live, which is not that record. */
  lemma StepIsPressed(g: Guard, e: Event, g': Guard, es: seq<Event>, id: string, later: int)
    requires es != [] && es[|es| - 1] == e && Step(g, e, g') && Pressed(g, es[..|es| - 1], id)
    requires g.maxEntries > 0 && |g'.seen| <= g.maxEntries && "" !in g.seen && id != ""
    requires e != Deleted(id) && !(e.Added? && e.accepted && e.id == id) && (Timed(e) ==> e.now <= later)
    requires id in g.seen ==> later - g.seen[id] <= g.ttl
    requires e.Added? ==> forall x :: x in g.seen ==> g.seen[x] < e.now
    requires id in g.seen ==> forall x :: x in g.seen && x != id ==> g.seen[x] != g.seen[id]
    ensures Pressed(g', es, id)
  {
    hide Pressed, Peak, LiveSince;
    if id !in g.seen {
      StaysOut(g, e, g', es, id);
    } else if !(e.Added? && e.accepted && e.id != "") {
      KeptIsPressed(g, e, g', es, id);
    } else if id in g'.seen {
      JoinedIsPressed(g, e, g', es, id);
    } else {
      PushedOutIsPressed(g, e, g', es, id);
    }
  }

  /** The pressure decides what is in a capped set, whatever is added, deleted or swept. */
  lemma {:induction false} PressureDecides(gs: seq<Guard>, es: seq<Event>, id: string, later: int)
    requires IsRun(gs, es) && Ticking(es) && NotAfter(es, later)
    requires gs[0].maxEntries > 0
    requires id != "" && LastRecord(es, id).Some? && later - LastRecord(es, id).value <= gs[0].ttl
    ensures Pressed(gs[|es|], es, id)
  {
    var n := |es| - 1;
    var g, e, g' := gs[n], es[n], gs[n + 1];
    var hs, h := gs[..n + 1], es[..n];
    ConfigFixed(hs, h);
    SizeWithinCap(gs, es);
    forall x | x in g.seen ensures x != "" && (e.Added? ==> g.seen[x] < e.now) {
      EntriesAreRecords(hs, h, x);
      if e.Added? {
        EntriesAreOlder(hs, h, e.now);
      }
    }
    if e.Added? && e.accepted && e.id == id {
      RecordedIsPressed(g, e, g', es, id);
    } else {
      PressureDecides(hs, h, id, later);
      if id in g.seen {
        EntriesAreRecords(hs, h, id);
        forall x | x in g.seen && x != id ensures g.seen[x] != g.seen[id] {
          DistinctTimes(hs, h, x, id);
        }
      }
      StepIsPressed(g, e, g', es, id, later);
    }
  }

  /**
  Main result, capped mode: under any mix of Add, Delete and Prune on a ticking clock, Add accepts exactly an id
  without a record, one whose record has expired, or one that since its record saw a cap's worth of other ids
  accepted and undeleted at once.
  */
  lemma CappedIsExact(gs: seq<Guard>, es: seq<Event>, i: nat)
    requires IsRun(gs, es) && Ticking(es) && gs[0].ttl > 0 && gs[0].maxEntries > 0
    requires i < |es| && es[i].Added? && es[i].id != ""
    ensures var record := LastRecord(es[..i], es[i].id);
            es[i].accepted <==>
            || record.None?
            || es[i].now - record.value > gs[0].ttl
            || Peak(es[..i], es[i].id) >= gs[0].maxEntries
  {
    var hs, h, id, now := gs[..i + 1], es[..i], es[i].id, es[i].now;
    RunPrefix(gs, es, i);
    TickingPrefix(es, i);
    ConfigFixed(hs, h);
    if id in gs[i].seen {
      EntriesAreRecords(hs, h, id);
    }
    var record := LastRecord(h, id);
    if record.Some? && now - record.value <= gs[0].ttl {
      PressureDecides(hs, h, id, now);
    }
  }

  /** The pressure never passes the number of other ids accepted since, and is that number where none of them
      was deleted. */
  lemma {:induction false} PeakWithinAccepted(es: seq<Event>, id: string)
    ensures Peak(es, id) <= |AcceptedSince(es, id)|
    ensures (forall k :: 0 <= k < |es| ==> !es[k].Deleted?) ==>
              LiveSince(es, id) == AcceptedSince(es, id) && Peak(es, id) == |AcceptedSince(es, id)|
  {
    if es != [] {
      var h := es[..|es| - 1];
      PeakWithinAccepted(h, id);
      assert (forall k :: 0 <= k < |es| ==> !es[k].Deleted?) ==> forall k :: 0 <= k < |h| ==> !h[k].Deleted?;
      SubsetSize(LiveSince(es, id), AcceptedSince(es, id));
      if !(es[|es| - 1].Added? && es[|es| - 1].accepted && es[|es| - 1].id == id) {
        SubsetSize(AcceptedSince(h, id), AcceptedSince(es, id));
      }
    }
  }

  lemma HistorySnoc(es: seq<Event>, e: Event, id: string)
    requires !(e.Added? && e.id == id)
    ensures var others := LiveSince(es, id);
            LiveSince(es + [e], id) == if e.Added? && e.accepted && e.id != "" then others + {e.id}
                                       else if e.Deleted? then others - {e.id} else others
    ensures var n, m := Peak(es, id), |LiveSince(es + [e], id)|; Peak(es + [e], id) == if n < m then m else n
    ensures var others := AcceptedSince(es, id);
            AcceptedSince(es + [e], id) == if e.Added? && e.accepted && e.id != "" then others + {e.id} else others
  {
    assert (es + [e])[..|es|] == es;
  }

  /** A run ticking up to `clock`, and where it stands. */
  ghost predicate Reaches(gs: seq<Guard>, es: seq<Event>, clock: int, g: Guard) {
    IsRun(gs, es) && Ticking(es) && NotAfter(es, clock) && gs[|es|] == g
  }

  lemma OneMore(gs: seq<Guard>, es: seq<Event>, clock: int, g: Guard, e: Event, later: int, g': Guard)
    requires Reaches(gs, es, clock, g) && Step(g, e, g') && clock <= later && (Timed(e) ==> e.now == later > clock)
    ensures Reaches(gs + [g'], es + [e], later, g')
  {
    assert (gs + [g'])[..|es| + 1] == gs && (es + [e])[..|es|] == es;
  }

  lemma ReachesIsRun(gs: seq<Guard>, es: seq<Event>, clock: int, g: Guard)
    requires Reaches(gs, es, clock, g)
    ensures IsRun(gs, es) && Ticking(es)
  {
  }

  lemma AddsNew(g: Guard, id: string, now: int)
    requires id != "" && id !in g.seen && |g.seen| < g.maxEntries
    ensures Step(g, Added(id, now, true), g.(seen := g.seen[id := now]))
  {
    assert MakesRoom(g, g.seen);
  }

  /** Three ids, the second deleted before the third comes. */
  function Relieved(a: string, b: string, c: string): seq<Event> {
    [Added(a, 1, true)] + [Added(b, 2, true)] + [Deleted(b)] + [Added(c, 3, true)]
  }

  /** Two ids were added after `a`, but not kept together... */
  lemma RelievedHistory(a: string, b: string, c: string)
    requires a != b && b != c && a != c && a != "" && b != "" && c != ""
    ensures var es := Relieved(a, b, c); AcceptedSince(es, a) == {b, c} && Peak(es, a) == 1
  {
    var e0 := [Added(a, 1, true)];
    assert LiveSince(e0, a) == {} && AcceptedSince(e0, a) == {} && Peak(e0, a) == 0;
    hide AcceptedSince, LiveSince, Peak;
    HistorySnoc(e0, Added(b, 2, true), a);
    HistorySnoc(e0 + [Added(b, 2, true)], Deleted(b), a);
    assert {} + {b} - {b} + {c} == {c};
    HistorySnoc(e0 + [Added(b, 2, true)] + [Deleted(b)], Added(c, 3, true), a);
  }

  /** ...so a set of two still refuses `a`. */
  lemma DeletionRelieves(a: string, b: string, c: string) returns (gs: seq<Guard>, es: seq<Event>)
    requires a != b && b != c && a != c && a != "" && b != "" && c != ""
    ensures es == Relieved(a, b, c) + [Added(a, 4, false)]
    ensures IsRun(gs, es) && Ticking(es) && gs[0].maxEntries == 2
    ensures AcceptedSince(es[..4], a) == {b, c} && Peak(es[..4], a) == 1
  {
    var g0 := Guard(map[], 100, 2);
    var g1, g2 := g0.(seen := map[a := 1]), g0.(seen := map[a := 1, b := 2]);
    var g4 := g0.(seen := map[a := 1, c := 3]);
    gs, es := [g0], [];
    assert Reaches(gs, es, 0, g0);
    AddsNew(g0, a, 1);
    AddsNew(g1, b, 2);
    AddsNew(g1, c, 3);
    assert Step(g2, Deleted(b), g1) by {
      assert g2.seen - {b} == g1.seen;
    }
    assert Step(g4, Added(a, 4, false), g4);
    assert g0.seen[a := 1] == g1.seen && g1.seen[b := 2] == g2.seen && g1.seen[c := 3] == g4.seen;
    hide Step, Reaches;
    OneMore(gs, es, 0, g0, Added(a, 1, true), 1, g1);
    gs, es := gs + [g1], es + [Added(a, 1, true)];
    OneMore(gs, es, 1, g1, Added(b, 2, true), 2, g2);
    gs, es := gs + [g2], es + [Added(b, 2, true)];
    OneMore(gs, es, 2, g2, Deleted(b), 2, g1);
    gs, es := gs + [g1], es + [Deleted(b)];
    OneMore(gs, es, 2, g1, Added(c, 3, true), 3, g4);
    gs, es := gs + [g4], es + [Added(c, 3, true)];
    RelievedHistory(a, b, c);
    OneMore(gs, es, 3, g4, Added(a, 4, false), 4, g4);
    ReachesIsRun(gs + [g4], es + [Added(a, 4, false)], 4, g4);
    assert (es + [Added(a, 4, false)])[..4] == es;
    gs, es := gs + [g4], es + [Added(a, 4, false)];
  }

  /** So a duplicate of an undeleted id, still within its TTL, is accepted again only when at least maxEntries
      distinct other ids were accepted since its record... */
  lemma CappedDuplicateNeedsPressure(gs: seq<Guard>, es: seq<Event>, i: nat)
    requires IsRun(gs, es) && Ticking(es) && gs[0].ttl > 0 && gs[0].maxEntries > 0
    requires i < |es| && es[i].Added? && es[i].id != "" && es[i].accepted
    requires LastRecord(es[..i], es[i].id).Some?
    requires es[i].now - LastRecord(es[..i], es[i].id).value <= gs[0].ttl
    ensures |AcceptedSince(es[..i], es[i].id)| >= gs[0].maxEntries
  {
    CappedIsExact(gs, es, i);
    PeakWithinAccepted(es[..i], es[i].id);
  }

  /** ...and exactly then where nothing is deleted. */
  lemma CappedIsExactWithoutDeletes(gs: seq<Guard>, es: seq<Event>, i: nat)
    requires IsRun(gs, es) && Ticking(es) && gs[0].ttl > 0 && gs[0].maxEntries > 0
    requires forall k :: 0 <= k < |es| ==> !es[k].Deleted?
    requires i < |es| && es[i].Added? && es[i].id != ""
    requires LastRecord(es[..i], es[i].id).Some?
    requires es[i].now - LastRecord(es[..i], es[i].id).value <= gs[0].ttl
    ensures es[i].accepted <==> |AcceptedSince(es[..i], es[i].id)| >= gs[0].maxEntries
  {
    CappedIsExact(gs, es, i);
    PeakWithinAccepted(es[..i], es[i].id);
  }

  // ---------------------------------------------------------------- prune is unobservable

  function Alive(g: Guard, now: int): map<string, int> {
    map k | k in g.seen && now - g.seen[k] <= g.ttl :: g.seen[k]
  }

  /** What a capped or TTL-only guard keeps on a ticking clock, `now` being the last time seen. */
  ghost predicate Sound(g: Guard, now: int) {
    && (forall j, k :: j in g.seen && k in g.seen && g.seen[j] == g.seen[k] ==> j == k)
    && (forall k :: k in g.seen ==> g.seen[k] <= now)
    && (g.maxEntries > 0 ==> |g.seen| <= g.maxEntries)
    && "" !in g.seen
  }

  /** Two guards no caller can tell apart from `now` on: they agree on the live entries. */
  ghost predicate Alike(a: Guard, b: Guard, now: int) {
    && a.ttl == b.ttl > 0 && a.maxEntries == b.maxEntries
    && Alive(a, now) == Alive(b, now)
    && Sound(a, now) && Sound(b, now)
  }

  lemma AlikeLater(a: Guard, b: Guard, now: int, later: int)
    requires Alike(a, b, now) && now <= later
    ensures Alike(a, b, later)
  {
    assert forall k :: k in Alive(a, later) ==> k in Alive(a, now);
    assert forall k :: k in Alive(b, later) ==> k in Alive(b, now);
    assert Alive(a, later) == Alive(b, later);
  }

  lemma PruneIsAlike(a: Guard, b: Guard, now: int)
    requires Alike(a, b, now)
    ensures Alike(a.(seen := Swept(a, now)), b, now)
  {
    var a' := a.(seen := Swept(a, now));
    SubsetSize(a'.seen.Keys, a.seen.Keys);
    assert Alive(a', now) == Alive(a, now);
  }

  /** An eviction either removes a dead entry, or every entry is alive. */
  lemma EvictionOfDeadOrFull(g: Guard, now: int, k: string)
    requires Sound(g, now) && IsOldest(g.seen, k)
    ensures if k in Alive(g, now) then Alive(g, now) == g.seen
            else Alive(g.(seen := g.seen - {k}), now) == Alive(g, now)
  {
    if k in Alive(g, now) {
      assert forall j :: j in g.seen ==> j in Alive(g, now);
    }
  }

  lemma AliveAfterAdd(g: Guard, room: map<string, int>, g': Guard, id: string, now: int)
    requires g.ttl > 0 && g' == g.(seen := room[id := now])
    ensures Alive(g', now) == Alive(g.(seen := room), now)[id := now]
  {
  }

  lemma SoundAfterAdd(g: Guard, e: Event, g': Guard, now: int)
    requires Sound(g, now) && Step(g, e, g') && e.Added? && e.now > now
    ensures Sound(g', e.now)
  {
    if g.maxEntries > 0 {
      StepKeepsCap(g, e, g');
    }
    if e.accepted && e.id != "" {
      var room := RoomMade(g, e, g');
    }
  }

  lemma FullAndAliveIsEqual(a: Guard, b: Guard, now: int)
    requires Alive(a, now) == Alive(b, now) == a.seen && |b.seen| <= |a.seen|
    ensures a.seen == b.seen
  {
    var extra := b.seen.Keys - a.seen.Keys;
    assert b.seen.Keys == a.seen.Keys + extra;
    assert |b.seen.Keys| == |a.seen.Keys| + |extra|;
  }

  lemma EvictsAliveOnlyTogether(a: Guard, b: Guard, now: int, ra: map<string, int>, rb: map<string, int>)
    requires Alike(a, b, now) && MakesRoom(a, ra) && MakesRoom(b, rb)
    ensures Alive(a.(seen := ra), now) == Alive(a, now) || (a.seen == b.seen && ra == rb)
  {
    if ra != a.seen {
      var k :| IsOldest(a.seen, k) && ra == a.seen - {k};
      EvictionOfDeadOrFull(a, now, k);
      if k in Alive(a, now) {
        FullAndAliveIsEqual(a, b, now);
        var j :| IsOldest(b.seen, j) && rb == b.seen - {j};
        assert a.seen[j] == a.seen[k];
      }
    }
  }

  /** If one of two alike guards evicts a live entry, both are full of the same live entries. */
  lemma SameEviction(a: Guard, b: Guard, now: int, ra: map<string, int>, rb: map<string, int>)
    requires Alike(a, b, now) && MakesRoom(a, ra) && MakesRoom(b, rb)
    ensures Alive(a.(seen := ra), now) == Alive(b.(seen := rb), now)
  {
    EvictsAliveOnlyTogether(a, b, now, ra, rb);
    EvictsAliveOnlyTogether(b, a, now, rb, ra);
  }

  /** When the other guard still holds the id (expired), this one has a dead entry or a free slot. */
  lemma RefreshOrInsert(a: Guard, b: Guard, t: int, id: string, ra: map<string, int>, rb: map<string, int>)
    requires Alike(a, b, t) && id !in Alive(a, t) && id !in Alive(b, t)
    requires id in a.seen ==> ra == a.seen
    requires id !in a.seen ==> id in b.seen && MakesRoom(a, ra)
    ensures Alive(a.(seen := ra), t) == Alive(a, t)
  {
    if ra != a.seen {
      var k :| IsOldest(a.seen, k) && ra == a.seen - {k};
      EvictionOfDeadOrFull(a, t, k);
      if k in Alive(a, t) {
        assert a.seen.Keys + {id} <= b.seen.Keys;
        SubsetSize(a.seen.Keys + {id}, b.seen.Keys);
        assert false;
      }
    }
  }

  /** One call of Add on alike guards: the same answer, and alike guards again. */
  lemma AddRespectsAlike(a: Guard, b: Guard, now: int, ea: Event, eb: Event, a': Guard, b': Guard)
    requires Alike(a, b, now) && ea.Added? && eb.Added? && ea.id == eb.id && ea.now == eb.now > now
    requires Step(a, ea, a') && Step(b, eb, b')
    ensures ea == eb && Alike(a', b', ea.now)
  {
    var id, t := ea.id, ea.now;
    AlikeLater(a, b, now, t);
    assert id in Alive(a, t) <==> id in Alive(b, t);
    SoundAfterAdd(a, ea, a', now);
    SoundAfterAdd(b, eb, b', now);
    if id != "" && ea.accepted {
      var ra := RoomMade(a, ea, a');
      var rb := RoomMade(b, eb, b');
      AliveAfterAdd(a, ra, a', id, t);
      AliveAfterAdd(b, rb, b', id, t);
      if id !in a.seen && id !in b.seen {
        SameEviction(a, b, t, ra, rb);
      } else {
        RefreshOrInsert(a, b, t, id, ra, rb);
        RefreshOrInsert(b, a, t, id, rb, ra);
      }
    }
  }

  /** The calls of a run with the sweeps taken out. */
  function WithoutPrunes(es: seq<Event>): seq<Event> {
    if es == [] then []
    else if es[|es| - 1].Pruned? then WithoutPrunes(es[..|es| - 1])
    else WithoutPrunes(es[..|es| - 1]) + [es[|es| - 1]]
  }

  /** The same call, whatever was answered. */
  predicate SameCall(e: Event, f: Event) {
    match e
    case Added(id, now, _) => f.Added? && f.id == id && f.now == now
    case Deleted(id) => f == e
    case Pruned(now) => false
  }

  ghost predicate SameCalls(es: seq<Event>, fs: seq<Event>) {
    |es| == |fs| && forall i :: 0 <= i < |es| ==> SameCall(es[i], fs[i])
  }

  lemma SoundSmaller(g: Guard, now: int, seen: map<string, int>)
    requires Sound(g, now) && seen.Keys <= g.seen.Keys && forall k :: k in seen ==> seen[k] == g.seen[k]
    ensures Sound(g.(seen := seen), now)
  {
    SubsetSize(seen.Keys, g.seen.Keys);
  }

  lemma AliveAfterDelete(g: Guard, now: int, e: Event, g': Guard)
    requires e.Deleted? && Step(g, e, g')
    ensures Alive(g', now) == if e.id == "" then Alive(g, now) else Alive(g, now) - {e.id}
  {
  }

  lemma DeleteRespectsAlike(a: Guard, b: Guard, now: int, e: Event, a': Guard, b': Guard)
    requires Alike(a, b, now) && e.Deleted? && Step(a, e, a') && Step(b, e, b')
    ensures Alike(a', b', now)
  {
    SoundSmaller(a, now, a'.seen);
    SoundSmaller(b, now, b'.seen);
    AliveAfterDelete(a, now, e, a');
    AliveAfterDelete(b, now, e, b');
  }

  /** The induction step: `last` is the clock before these two events. */
  lemma OneStepAlike(a: Guard, e: Event, a': Guard, b: Guard, f: Event, b': Guard, last: int, now: int)
    requires Step(a, e, a') && Step(b, f, b') && Alike(a, b, last) && last <= now
    requires SameCall(e, f) && (e.Added? ==> last < e.now <= now)
    ensures e == f && Alike(a', b', now)
  {
    if e.Added? {
      AddRespectsAlike(a, b, last, e, f, a', b');
      AlikeLater(a', b', e.now, now);
    } else {
      AlikeLater(a, b, last, now);
      DeleteRespectsAlike(a, b, now, e, a', b');
    }
  }

  lemma LastCall(calls: seq<Event>, e: Event, fs: seq<Event>)
    requires SameCalls(calls + [e], fs)
    ensures fs != [] && SameCalls(calls, fs[..|fs| - 1]) && SameCall(e, fs[|fs| - 1])
    ensures fs == fs[..|fs| - 1] + [fs[|fs| - 1]]
  {
    var all := calls + [e];
    assert all[|calls|] == e;
    forall i | 0 <= i < |calls|
      ensures SameCall(calls[i], fs[..|fs| - 1][i])
    {
      assert all[i] == calls[i];
    }
  }

  lemma EmptyIsAlike(g: Guard, now: int)
    requires g.seen == map[] && g.ttl > 0
    ensures Alike(g, g, now)
  {
  }

  /** What is known of a run up to its last event. */
  lemma RunFront(gs: seq<Guard>, es: seq<Event>)
    requires IsRun(gs, es) && es != []
    ensures var n := |es| - 1;
            && IsRun(gs[..n + 1], es[..n]) && gs[..n + 1][0] == gs[0] && gs[..n + 1][n] == gs[n]
            && Step(gs[n], es[n], gs[n + 1])
  {
  }

  lemma TickingFront(es: seq<Event>, now: int)
    requires Ticking(es) && NotAfter(es, now) && es != []
    ensures var n := |es| - 1;
            && Ticking(es[..n]) && NotAfter(es[..n], now)
            && (Timed(es[n]) ==> es[n].now <= now && NotAfter(es[..n], es[n].now))
            && (es[n].Added? ==> NotAfter(es[..n], es[n].now - 1))
  {
  }

  lemma SweepAlike(gs: seq<Guard>, es: seq<Event>, h: Guard, now: int)
    requires IsRun(gs, es) && es != [] && es[|es| - 1].Pruned? && es[|es| - 1].now <= now
    requires Alike(gs[|es| - 1], h, es[|es| - 1].now)
    ensures Alike(gs[|es|], h, now)
  {
    var n := |es| - 1;
    RunFront(gs, es);
    PruneIsAlike(gs[n], h, es[n].now);
    AlikeLater(gs[n + 1], h, es[n].now, now);
  }

  lemma {:induction false} AlikeThroughout(gs: seq<Guard>, es: seq<Event>, hs: seq<Guard>, fs: seq<Event>, now: int)
    requires IsRun(gs, es) && IsRun(hs, fs) && gs[0] == hs[0] && gs[0].ttl > 0
    requires Ticking(es) && NotAfter(es, now) && SameCalls(WithoutPrunes(es), fs)
    ensures Alike(gs[|es|], hs[|fs|], now)
    ensures WithoutPrunes(es) == fs
    decreases |es|, 1
  {
    if es == [] {
      EmptyIsAlike(gs[0], now);
    } else {
      var n := |es| - 1;
      RunFront(gs, es);
      TickingFront(es, now);
      if es[n].Pruned? {
        AlikeThroughout(gs[..n + 1], es[..n], hs, fs, es[n].now);
        SweepAlike(gs, es, hs[|fs|], now);
      } else {
        CallAlike(gs, es, hs, fs, now);
      }
    }
  }

  lemma LastEventsAlike(gs: seq<Guard>, es: seq<Event>, hs: seq<Guard>, fs: seq<Event>, last: int, now: int)
    requires IsRun(gs, es) && IsRun(hs, fs) && es != [] && fs != []
    requires SameCall(es[|es| - 1], fs[|fs| - 1]) && Alike(gs[|es| - 1], hs[|fs| - 1], last) && last <= now
    requires es[|es| - 1].Added? ==> last < es[|es| - 1].now <= now
    ensures es[|es| - 1] == fs[|fs| - 1] && Alike(gs[|es|], hs[|fs|], now)
  {
    RunFront(gs, es);
    RunFront(hs, fs);
    OneStepAlike(gs[|es| - 1], es[|es| - 1], gs[|es|], hs[|fs| - 1], fs[|fs| - 1], hs[|fs|], last, now);
  }

  lemma {:induction false} CallAlike(gs: seq<Guard>, es: seq<Event>, hs: seq<Guard>, fs: seq<Event>, now: int)
    requires IsRun(gs, es) && IsRun(hs, fs) && gs[0] == hs[0] && gs[0].ttl > 0
    requires Ticking(es) && NotAfter(es, now) && SameCalls(WithoutPrunes(es), fs)
    requires es != [] && !es[|es| - 1].Pruned?
    ensures Alike(gs[|es|], hs[|fs|], now)
    ensures WithoutPrunes(es) == fs
    decreases |es|, 0
  {
    var n := |es| - 1;
    var calls := WithoutPrunes(es[..n]);
    LastCall(calls, es[n], fs);
    var m := |fs| - 1;
    var last := if es[n].Added? then es[n].now - 1 else now;
    FrontAlike(gs, es, hs, fs, last, now);
    LastEventsAlike(gs, es, hs, fs, last, now);
  }

  lemma {:induction false} FrontAlike(gs: seq<Guard>, es: seq<Event>, hs: seq<Guard>, fs: seq<Event>,
                                            last: int, now: int)
    requires IsRun(gs, es) && IsRun(hs, fs) && gs[0] == hs[0] && gs[0].ttl > 0
    requires es != [] && fs != [] && Ticking(es) && NotAfter(es, now)
    requires last == if es[|es| - 1].Added? then es[|es| - 1].now - 1 else now
    requires SameCalls(WithoutPrunes(es[..|es| - 1]), fs[..|fs| - 1])
    ensures Alike(gs[|es| - 1], hs[|fs| - 1], last) && last <= now
    ensures es[|es| - 1].Added? ==> last < es[|es| - 1].now <= now
    ensures WithoutPrunes(es[..|es| - 1]) == fs[..|fs| - 1]
    decreases |es| - 1, 2
  {
    RunFront(gs, es);
    RunFront(hs, fs);
    TickingFront(es, now);
    AlikeThroughout(gs[..|es|], es[..|es| - 1], hs[..|fs|], fs[..|fs| - 1], last);
  }

  lemma {:induction false} Latest(es: seq<Event>) returns (now: int)
    ensures NotAfter(es, now)
  {
    if es == [] {
      now := 0;
    } else {
      now := Latest(es[..|es| - 1]);
      if Timed(es[|es| - 1]) && es[|es| - 1].now > now {
        now := es[|es| - 1].now;
      }
    }
  }

  /**
  Main result, any mode with a positive TTL: take a run with sweeps and a run of the same calls
  without them. Every answer is the same, even though the cap may evict different entries.
  */
  lemma PruneIsUnobservable(gs: seq<Guard>, es: seq<Event>, hs: seq<Guard>, fs: seq<Event>)
    requires IsRun(gs, es) && IsRun(hs, fs) && gs[0] == hs[0] && gs[0].ttl > 0
    requires Ticking(es) && SameCalls(WithoutPrunes(es), fs)
    ensures WithoutPrunes(es) == fs
  {
    var now := Latest(es);
    AlikeThroughout(gs, es, hs, fs, now);
  }

  /** With no TTL the sweep does show: it is invisible to every later caller exactly when the TTL
      is positive or there was nothing to sweep. */
  lemma PruneIsInvisibleExactlyWhen(g: Guard, now: int)
    requires "" !in g.seen
    ensures (forall id, later :: later >= now ==>
               Accepts(g.(seen := Swept(g, now)), id, later) == Accepts(g, id, later))
            <==> (g.ttl > 0 || Swept(g, now) == g.seen)
  {
    var g' := g.(seen := Swept(g, now));
    if g.ttl <= 0 && Swept(g, now) != g.seen {
      assert exists id :: id in g.seen && id !in g'.seen;
      var id :| id in g.seen && id !in g'.seen;
      assert Accepts(g', id, now) && !Accepts(g, id, now);
    }
  }
}
