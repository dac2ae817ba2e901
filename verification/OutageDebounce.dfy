/**
The debounce of backend outages (internal/feishufront/dispatcher_backend.go). Every section held
under flapMu is one step; a timer that elapses, and the callback it starts, are steps of their own,
so a callback can be overtaken between firing and taking the lock. Times are milliseconds.
*/
module OutageDebounce {
  import opened Options
  import opened Runs

  const WINDOW: int := 30_000

  /** One entry of the flap table; `timer` is the id of the pending timer. */
  datatype Flap = Flap(pendingType: string, timer: Option<nat>, notifiedOffline: bool, generation: nat)

  const FRESH := Flap("", None, false, 0)

  /** What a debounce timer's callback captured, and when it was armed. */
  datatype Callback = Callback(backend: string, generation: nat, armedAt: int)

  datatype Edge = Edge(up: bool, at: int)

  /** The flap table with the runtime's timers around it. */
  datatype Table = Table(
    now: int,
    flap: map<string, Flap>,
    armed: map<nat, Callback>,   // timers that have not elapsed
    fired: map<nat, Callback>,   // callbacks on their way to the lock
    nextTimer: nat,
    heard: map<string, Edge>)    // last connect or disconnect of each backend

  function Entry(flap: map<string, Flap>, b: string): Flap {
    if b in flap then flap[b] else FRESH
  }

  function Stopped(armed: map<nat, Callback>, timer: Option<nat>): map<nat, Callback> {
    if timer.Some? then armed - {timer.value} else armed
  }

  function Down(t: Table, b: string, typ: string): Table {
    var st := Entry(t.flap, b);
    var heard := t.heard[b := Edge(false, t.now)];
    if st.notifiedOffline then t.(heard := heard)
    else
      Table(t.now,
            t.flap[b := Flap(typ, Some(t.nextTimer), false, st.generation + 1)],
            Stopped(t.armed, st.timer)[t.nextTimer := Callback(b, st.generation + 1, t.now)],
            t.fired, t.nextTimer + 1, heard)
  }

  /** Does the callback of timer `id` find the entry it was armed for? Then it posts "offline". */
  predicate Posts(t: Table, id: nat) {
    && id in t.fired
    && t.fired[id].backend in t.flap
    && t.flap[t.fired[id].backend].generation == t.fired[id].generation
  }

  function RunCallback(t: Table, id: nat): Table
    requires id in t.fired
  {
    var b := t.fired[id].backend;
    if Posts(t, id) then
      t.(fired := t.fired - {id}, flap := t.flap[b := t.flap[b].(notifiedOffline := true, timer := None)])
    else
      t.(fired := t.fired - {id})
  }

  /** Does a reconnect of `b` post "recovered"? */
  predicate Recovers(t: Table, b: string) {
    b in t.flap && t.flap[b].timer.None? && t.flap[b].notifiedOffline
  }

  function Up(t: Table, b: string): Table {
    t.(heard := t.heard[b := Edge(true, t.now)],
       flap := t.flap - {b},
       armed := Stopped(t.armed, Entry(t.flap, b).timer))
  }

  function Elapse(t: Table, id: nat): Table
    requires id in t.armed
  {
    t.(armed := t.armed - {id}, fired := t.fired[id := t.armed[id]])
  }

  class FlapTable {
    var now: int
    var flap: map<string, Flap>
    var armed: map<nat, Callback>
    var fired: map<nat, Callback>
    var nextTimer: nat
    ghost var heard: map<string, Edge>

    ghost function View(): Table
      reads this
    {
      Table(now, flap, armed, fired, nextTimer, heard)
    }

    method OnBackendOffline(backendID: string, backendType: string)
      modifies this
      ensures View() == Down(old(View()), backendID, backendType)
      ensures backendID in old(flap) && old(flap)[backendID].notifiedOffline ==>
                flap == old(flap) && armed == old(armed) && nextTimer == old(nextTimer)
      ensures !(backendID in old(flap) && old(flap)[backendID].notifiedOffline) ==>
                var known := backendID in old(flap);
                var gen := if known then old(flap)[backendID].generation + 1 else 1;
                && nextTimer == old(nextTimer) + 1
                && flap == old(flap)[backendID := Flap(backendType, Some(old(nextTimer)), false, gen)]
                && armed == (if known && old(flap)[backendID].timer.Some?
                             then old(armed) - {old(flap)[backendID].timer.value} else old(armed))
                            [old(nextTimer) := Callback(backendID, gen, now)]
      ensures fired == old(fired) && now == old(now)
    {
      heard := heard[backendID := Edge(false, now)];
      var st := FRESH;
      if backendID in flap {
        st := flap[backendID];
      }
      if st.notifiedOffline {
        return;
      }
      st := st.(pendingType := backendType);
      st := st.(generation := st.generation + 1);
      if st.timer.Some? {
        armed := armed - {st.timer.value};
      }
      armed := armed[nextTimer := Callback(backendID, st.generation, now)];
      st := st.(timer := Some(nextTimer));
      nextTimer := nextTimer + 1;
      flap := flap[backendID := st];
    }

    /** The locked section of fireOfflineNotice; `post` says that the notice goes out. */
    method FireOfflineNotice(id: nat) returns (post: bool)
      requires id in fired
      modifies this
      ensures post == Posts(old(View()), id)
      ensures View() == RunCallback(old(View()), id)
      ensures var b := old(fired)[id].backend;
              && (post <==> b in old(flap) && old(flap)[b].generation == old(fired)[id].generation)
              && fired == old(fired) - {id} && armed == old(armed)
              && flap == if post then old(flap)[b := old(flap)[b].(notifiedOffline := true, timer := None)]
                         else old(flap)
    {
      var backendID, armedGen := fired[id].backend, fired[id].generation;
      fired := fired - {id};
      if backendID !in flap || flap[backendID].generation != armedGen {
        return false;
      }
      flap := flap[backendID := flap[backendID].(notifiedOffline := true, timer := None)];
      return true;
    }

    /** The locked section of OnBackendOnline; `post` says that a recovery notice goes out. */
    method OnBackendOnline(backendID: string) returns (post: bool)
      modifies this
      ensures post == Recovers(old(View()), backendID)
      ensures View() == Up(old(View()), backendID)
      ensures post <==> backendID in old(flap) && old(flap)[backendID].timer.None?
                        && old(flap)[backendID].notifiedOffline
      ensures flap == old(flap) - {backendID} && fired == old(fired)
      ensures armed == if backendID in old(flap) && old(flap)[backendID].timer.Some?
                       then old(armed) - {old(flap)[backendID].timer.value} else old(armed)
    {
      heard := heard[backendID := Edge(true, now)];
      if backendID !in flap {
        assert flap - {backendID} == flap;
        return false;
      }
      var st := flap[backendID];
      if st.timer.Some? {
        armed := armed - {st.timer.value};
        flap := flap - {backendID};
        return false;
      }
      if !st.notifiedOffline {
        flap := flap - {backendID};
        return false;
      }
      flap := flap - {backendID};
      return true;
    }
  }

  function Released(turns: map<string, string>, b: string): map<string, string> {
    map p | p in turns && turns[p] != b :: turns[p]
  }

  class TurnManager {
    var turns: map<string, string>   // prompt id to the backend that owns the turn

    /** Releases every turn the backend owns and returns them. */
    method ReclaimBackend(backendID: string) returns (reclaimed: set<string>)
      modifies this
      ensures turns == Released(old(turns), backendID)
      ensures reclaimed == old(turns).Keys - turns.Keys
      ensures forall p :: p in turns <==> p in old(turns) && old(turns)[p] != backendID
      ensures forall p :: p in turns ==> turns[p] == old(turns)[p]
    {
      var todo := turns.Keys;
      reclaimed := {};
      while todo != {}
        invariant todo <= turns.Keys <= old(turns).Keys
        invariant forall p :: p in turns ==> turns[p] == old(turns)[p]
        invariant forall p :: p in old(turns) && p !in todo ==> (p in turns <==> old(turns)[p] != backendID)
        invariant reclaimed == old(turns).Keys - turns.Keys
        decreases |todo|
      {
        var p :| p in todo;
        if turns[p] == backendID {
          turns := turns - {p};
          reclaimed := reclaimed + {p};
        }
        todo := todo - {p};
      }
    }
  }

  // ---------------------------------------------------------------- runs

  datatype Step =
    | Disconnect(backend: string, typ: string)
    | Connect(backend: string)
    | TimerElapses(id: nat)
    | CallbackRuns(id: nat)
    | TurnsReclaimed(backend: string)
    | TurnStarts(prompt: string, owner: string)
    | TurnEnds(prompt: string)
    | TimePasses(ms: nat)

  datatype Decision = WentOffline(backend: string) | CameBack(backend: string)

  datatype System = System(
    table: Table,
    decisions: seq<Decision>,      // lock sections that decided to post a notice
    reclaiming: multiset<string>,  // confirmed outages whose turns are still to be reclaimed
    reclaimed: multiset<string>,   // reclaims carried out
    turns: map<string, string>)

  /** One atomic step; a step that is not enabled changes nothing. */
  function Next(s: System, step: Step): System {
    match step
    case Disconnect(b, typ) => s.(table := Down(s.table, b, typ))
    case Connect(b) =>
      s.(table := Up(s.table, b),
         decisions := if Recovers(s.table, b) then s.decisions + [CameBack(b)] else s.decisions)
    case TimerElapses(id) =>
      if id in s.table.armed && s.table.armed[id].armedAt + WINDOW <= s.table.now
      then s.(table := Elapse(s.table, id)) else s
    case CallbackRuns(id) =>
      if id !in s.table.fired then s
      else if !Posts(s.table, id) then s.(table := RunCallback(s.table, id))
      else
        var b := s.table.fired[id].backend;
        s.(table := RunCallback(s.table, id), decisions := s.decisions + [WentOffline(b)],
           reclaiming := s.reclaiming + multiset{b})
    case TurnsReclaimed(b) =>
      if b !in s.reclaiming then s
      else s.(reclaiming := s.reclaiming - multiset{b}, reclaimed := s.reclaimed + multiset{b},
              turns := Released(s.turns, b))
    case TurnStarts(p, b) => s.(turns := s.turns[p := b])
    case TurnEnds(p) => s.(turns := s.turns - {p})
    case TimePasses(ms) => s.(table := s.table.(now := s.table.now + ms))
  }

  function After(s: System, steps: seq<Step>): System {
    Fold(Next, s, steps)
  }

  const INIT := System(Table(0, map[], map[], map[], 0, map[]), [], multiset{}, multiset{}, map[])

  /** No callback of `b` is between firing and the lock. */
  predicate NoneOutstanding(t: Table, b: string) {
    forall id :: id in t.fired ==> t.fired[id].backend != b
  }

  /** A step that creates an entry does so with no old callback of that backend outstanding. */
  predicate CreatesCleanly(s: System, step: Step) {
    step.Disconnect? && step.backend !in s.table.flap ==> NoneOutstanding(s.table, step.backend)
  }

  predicate CleanRun(s: System, steps: seq<Step>) {
    AllAlong(Next, CreatesCleanly, s, steps)
  }

  // ---------------------------------------------------------------- what holds in every run

  /** The decisions taken for one backend: true for offline, false for recovered. */
  function DecisionsOf(ds: seq<Decision>, b: string): seq<bool> {
    if ds == [] then []
    else
      var d := ds[|ds| - 1];
      DecisionsOf(ds[..|ds| - 1], b) + if d.backend == b then [d.WentOffline?] else []
  }

  function OfflineCount(ds: seq<Decision>, b: string): nat {
    if ds == [] then 0
    else OfflineCount(ds[..|ds| - 1], b) + if ds[|ds| - 1] == WentOffline(b) then 1 else 0
  }

  lemma Snoc(ds: seq<Decision>, d: Decision, b: string)
    ensures DecisionsOf(ds + [d], b) == DecisionsOf(ds, b) + if d.backend == b then [d.WentOffline?] else []
    ensures OfflineCount(ds + [d], b) == OfflineCount(ds, b) + if d == WentOffline(b) then 1 else 0
  {
    assert (ds + [d])[..|ds|] == ds;
  }

  predicate TimerMatches(t: Table, b: string) {
    b in t.flap ==> (t.flap[b].timer.Some? <==> !t.flap[b].notifiedOffline)
  }

  lemma StepKeepsTimerMatch(s: System, step: Step, b: string)
    requires TimerMatches(s.table, b)
    ensures TimerMatches(Next(s, step).table, b)
  {
  }

  /** In every run: an entry has a pending timer exactly when its outage is unconfirmed, so the
      "nothing pending, nothing shown" branch of OnBackendOnline is dead. */
  lemma {:induction false} TimerIffUnconfirmed(steps: seq<Step>, b: string)
    ensures TimerMatches(After(INIT, steps).table, b)
  {
    if steps != [] {
      TimerIffUnconfirmed(steps[..|steps| - 1], b);
      StepKeepsTimerMatch(After(INIT, steps[..|steps| - 1]), steps[|steps| - 1], b);
    }
  }

  predicate ReclaimsBalance(s: System, b: string) {
    s.reclaiming[b] + s.reclaimed[b] == OfflineCount(s.decisions, b)
  }

  lemma StepKeepsBalance(s: System, step: Step, b: string)
    requires ReclaimsBalance(s, b)
    ensures ReclaimsBalance(Next(s, step), b)
  {
    if step.CallbackRuns? && step.id in s.table.fired {
      Snoc(s.decisions, WentOffline(s.table.fired[step.id].backend), b);
    } else if step.Connect? {
      Snoc(s.decisions, CameBack(step.backend), b);
    }
  }

  /** In every run, each confirmed outage is reclaimed at most once and nothing else is. */
  lemma {:induction false} ReclaimsMatchConfirmedOutages(steps: seq<Step>, b: string)
    ensures ReclaimsBalance(After(INIT, steps), b)
  {
    if steps != [] {
      ReclaimsMatchConfirmedOutages(steps[..|steps| - 1], b);
      StepKeepsBalance(After(INIT, steps[..|steps| - 1]), steps[|steps| - 1], b);
    }
  }

  // ---------------------------------------------------------------- what holds in clean runs

  ghost predicate TimersKnown(t: Table) {
    && (forall id :: id in t.armed || id in t.fired ==> id < t.nextTimer)
    && (forall id :: id in t.armed ==> id !in t.fired)
    && (forall id :: id in t.fired ==> t.fired[id].armedAt + WINDOW <= t.now)
    && (forall id :: id in t.armed ==>
          && t.armed[id].backend in t.flap
          && t.flap[t.armed[id].backend].timer == Some(id)
          && t.flap[t.armed[id].backend].generation == t.armed[id].generation)
    && (forall id :: id in t.fired && t.fired[id].backend in t.flap ==>
          && t.fired[id].generation <= t.flap[t.fired[id].backend].generation
          && (t.fired[id].generation == t.flap[t.fired[id].backend].generation ==>
                t.flap[t.fired[id].backend].timer == Some(id)))
  }

  /** A pending entry belongs to a backend last heard of when the entry's timer was armed. */
  ghost predicate PendingIsQuiet(t: Table) {
    forall b :: b in t.flap && t.flap[b].timer.Some? ==>
      var id := t.flap[b].timer.value;
      && b in t.heard && !t.heard[b].up
      && (id in t.armed || id in t.fired)
      && (id in t.armed ==> t.armed[id] == Callback(b, t.flap[b].generation, t.heard[b].at))
      && (id in t.fired ==> t.fired[id] == Callback(b, t.flap[b].generation, t.heard[b].at))
  }

  ghost predicate Alternating(ds: seq<Decision>, b: string) {
    forall i :: 0 <= i < |DecisionsOf(ds, b)| ==> DecisionsOf(ds, b)[i] == (i % 2 == 0)
  }

  predicate LastIsOffline(ds: seq<Decision>, b: string) {
    |DecisionsOf(ds, b)| % 2 == 1
  }

  /** The last decision for a backend was "offline" exactly while its entry says so. */
  ghost predicate DecisionsMatch(s: System) {
    forall b :: Alternating(s.decisions, b)
                && (LastIsOffline(s.decisions, b) <==> Entry(s.table.flap, b).notifiedOffline)
  }

  ghost predicate TableInv(t: Table) {
    && TimersKnown(t) && PendingIsQuiet(t)
    && (forall b :: b in t.flap ==> (t.flap[b].timer.Some? <==> !t.flap[b].notifiedOffline))
  }

  ghost predicate Inv(s: System) {
    TableInv(s.table) && DecisionsMatch(s)
  }

  lemma DownKeepsTimers(t: Table, b: string, typ: string)
    requires TableInv(t) && (b !in t.flap ==> NoneOutstanding(t, b))
    ensures TimersKnown(Down(t, b, typ))
  {
  }

  lemma DownKeepsQuiet(t: Table, b: string, typ: string)
    requires TableInv(t)
    ensures PendingIsQuiet(Down(t, b, typ))
  {
    var t' := Down(t, b, typ);
    forall c | c in t'.flap && t'.flap[c].timer.Some? && c != b
      ensures t'.flap[c] == t.flap[c] && t'.heard[c] == t.heard[c]
      ensures t.flap[c].timer.value in t.armed ==> t.flap[c].timer.value in t'.armed
    {
    }
  }

  lemma DownKeepsTable(t: Table, b: string, typ: string)
    requires TableInv(t) && (b !in t.flap ==> NoneOutstanding(t, b))
    ensures TableInv(Down(t, b, typ))
  {
    DownKeepsTimers(t, b, typ);
    DownKeepsQuiet(t, b, typ);
  }

  lemma UpKeepsTable(t: Table, b: string)
    requires TableInv(t)
    ensures TableInv(Up(t, b))
  {
    var t' := Up(t, b);
    assert TimersKnown(t');
    assert PendingIsQuiet(t');
  }

  lemma RunKeepsTable(t: Table, id: nat)
    requires TableInv(t) && id in t.fired
    ensures TableInv(RunCallback(t, id))
  {
    var t' := RunCallback(t, id);
    assert TimersKnown(t');
    assert PendingIsQuiet(t');
  }

  lemma ElapseKeepsTable(t: Table, id: nat)
    requires TableInv(t) && id in t.armed && t.armed[id].armedAt + WINDOW <= t.now
    ensures TableInv(Elapse(t, id))
  {
    var t' := Elapse(t, id);
    assert TimersKnown(t');
    assert PendingIsQuiet(t');
  }

  /** Recording one more decision for a backend keeps the alternation if it is the other kind. */
  lemma Alternate(ds: seq<Decision>, d: Decision, x: string)
    requires Alternating(ds, x)
    requires d.backend == x ==> LastIsOffline(ds, x) == !d.WentOffline?
    ensures Alternating(ds + [d], x)
    ensures LastIsOffline(ds + [d], x) == if d.backend == x then d.WentOffline? else LastIsOffline(ds, x)
  {
    Snoc(ds, d, x);
  }

  lemma DecisionKeepsMatch(s: System, d: Decision, s': System)
    requires DecisionsMatch(s) && s'.decisions == s.decisions + [d]
    requires Entry(s.table.flap, d.backend).notifiedOffline == !d.WentOffline?
    requires Entry(s'.table.flap, d.backend).notifiedOffline == d.WentOffline?
    requires forall x :: x != d.backend ==> Entry(s'.table.flap, x) == Entry(s.table.flap, x)
    ensures DecisionsMatch(s')
  {
    forall x
      ensures Alternating(s'.decisions, x)
      ensures LastIsOffline(s'.decisions, x) <==> Entry(s'.table.flap, x).notifiedOffline
    {
      Alternate(s.decisions, d, x);
    }
  }

  lemma ConnectKeepsInv(s: System, b: string)
    requires Inv(s)
    ensures Inv(Next(s, Connect(b)))
  {
    UpKeepsTable(s.table, b);
    if Recovers(s.table, b) {
      DecisionKeepsMatch(s, CameBack(b), Next(s, Connect(b)));
    } else {
      assert TimerMatches(s.table, b);
    }
  }

  lemma CallbackKeepsInv(s: System, id: nat)
    requires Inv(s) && id in s.table.fired
    ensures Inv(Next(s, CallbackRuns(id)))
  {
    RunKeepsTable(s.table, id);
    if Posts(s.table, id) {
      assert TimerMatches(s.table, s.table.fired[id].backend);
      DecisionKeepsMatch(s, WentOffline(s.table.fired[id].backend), Next(s, CallbackRuns(id)));
    }
  }

  lemma NextKeepsInv(s: System, step: Step)
    requires Inv(s) && CreatesCleanly(s, step)
    ensures Inv(Next(s, step))
  {
    match step
    case Disconnect(b, typ) => DownKeepsTable(s.table, b, typ);
    case Connect(b) => ConnectKeepsInv(s, b);
    case CallbackRuns(id) =>
      if id in s.table.fired {
        CallbackKeepsInv(s, id);
      }
    case TimerElapses(id) =>
      if id in s.table.armed && s.table.armed[id].armedAt + WINDOW <= s.table.now {
        ElapseKeepsTable(s.table, id);
      }
    case TimePasses(ms) => assert TableInv(Next(s, step).table);
    case _ => assert Next(s, step).table == s.table;
  }

  lemma {:induction false} CleanRunsKeepInv(s: System, steps: seq<Step>)
    requires Inv(s) && CleanRun(s, steps)
    ensures Inv(After(s, steps))
  {
    if steps != [] {
      CleanRunsKeepInv(s, steps[..|steps| - 1]);
      NextKeepsInv(After(s, steps[..|steps| - 1]), steps[|steps| - 1]);
    }
  }

  lemma InitInv()
    ensures Inv(INIT)
  {
  }

  /** Main result: in a clean run each backend's decisions alternate, offline first. */
  lemma DecisionsAlternate(steps: seq<Step>, b: string)
    requires CleanRun(INIT, steps)
    ensures Alternating(After(INIT, steps).decisions, b)
  {
    InitInv();
    CleanRunsKeepInv(INIT, steps);
  }

  /** Main result: in a clean run a callback that posts is the one armed last, and the backend has
      been neither connected nor disconnected again for the whole window: a blip posts nothing. */
  lemma OnlyAQuietOutagePosts(steps: seq<Step>, id: nat)
    requires CleanRun(INIT, steps) && Posts(After(INIT, steps).table, id)
    ensures var t := After(INIT, steps).table; var b := t.fired[id].backend;
            && t.flap[b].timer == Some(id)
            && b in t.heard && !t.heard[b].up && t.heard[b].at + 30_000 <= t.now
  {
    InitInv();
    CleanRunsKeepInv(INIT, steps);
  }

  // ---------------------------------------------------------------- and exactly there

  function Disconnects(b: string, typ: string, n: nat): seq<Step> {
    seq(n, _ => Disconnect(b, typ))
  }

  lemma AfterAppend(s: System, xs: seq<Step>, step: Step)
    ensures After(s, xs + [step]) == Next(After(s, xs), step)
    ensures CleanRun(s, xs + [step]) == (CleanRun(s, xs) && CreatesCleanly(After(s, xs), step))
  {
    assert (xs + [step])[..|xs|] == xs;
  }

  /** Backend `b` is pending and its timer was armed just now. */
  predicate JustArmed(t: Table, b: string) {
    && b in t.flap && !t.flap[b].notifiedOffline
    && t.flap[b].timer.Some? && t.flap[b].timer.value in t.armed && t.flap[b].timer.value < t.nextTimer
    && t.armed[t.flap[b].timer.value] == Callback(b, t.flap[b].generation, t.now)
  }

  /** Disconnecting again and again re-arms: the generation counts up and stale callbacks stay. */
  lemma {:induction false} Rearms(s: System, b: string, typ: string, n: nat)
    requires JustArmed(s.table, b)
    ensures var s' := After(s, Disconnects(b, typ, n));
            && JustArmed(s'.table, b)
            && s.table.flap[b].timer.value <= s'.table.flap[b].timer.value
            && s'.table.flap[b].generation == s.table.flap[b].generation + n
            && s'.table.fired == s.table.fired && s'.decisions == s.decisions
    ensures CleanRun(s, Disconnects(b, typ, n))
  {
    if n > 0 {
      Rearms(s, b, typ, n - 1);
      assert Disconnects(b, typ, n) == Disconnects(b, typ, n - 1) + [Disconnect(b, typ)];
      AfterAppend(s, Disconnects(b, typ, n - 1), Disconnect(b, typ));
    } else {
      assert Disconnects(b, typ, n) == [];
    }
  }

  lemma FourSteps(s: System, xs: seq<Step>)
    requires |xs| == 4 && forall i :: 0 <= i < 4 ==> !xs[i].Disconnect?
    ensures After(s, xs) == Next(Next(Next(Next(s, xs[0]), xs[1]), xs[2]), xs[3])
    ensures CleanRun(s, xs)
  {
    assert xs[..3][..2] == xs[..2] && xs[..2][..1] == xs[..1] && xs[..1][..0] == [];
    assert CleanRun(s, xs[..1]);
    assert CleanRun(s, xs[..2]);
    assert CleanRun(s, xs[..3]);
    assert After(s, xs[..1]) == Next(s, xs[0]);
    assert After(s, xs[..2]) == Next(After(s, xs[..1]), xs[1]);
    assert After(s, xs[..3]) == Next(After(s, xs[..2]), xs[2]);
  }

  /** A stale callback that meets its own generation posts, and the armed one posts again. */
  lemma TwoOfflineInARow(s: System, b: string, stale: nat) returns (more: seq<Step>)
    requires JustArmed(s.table, b) && s.table.flap[b].timer.value != stale
    requires stale in s.table.fired && s.table.fired[stale].backend == b
    requires s.table.fired[stale].generation == s.table.flap[b].generation
    ensures CleanRun(s, more)
    ensures After(s, more).decisions == s.decisions + [WentOffline(b), WentOffline(b)]
  {
    var id := s.table.flap[b].timer.value;
    more := [CallbackRuns(stale), TimePasses(WINDOW), TimerElapses(id), CallbackRuns(id)];
    var s1 := Next(s, more[0]);
    var s2 := Next(s1, more[1]);
    var s3 := Next(s2, more[2]);
    assert s1.decisions == s.decisions + [WentOffline(b)] && id in s1.table.armed;
    FourSteps(s, more);
    assert Next(s3, more[3]).decisions == s.decisions + [WentOffline(b), WentOffline(b)];
  }

  lemma {:induction false} DecisionsOfTwo(ds: seq<Decision>, b: string)
    ensures !Alternating(ds + [WentOffline(b), WentOffline(b)], b)
  {
    var one := ds + [WentOffline(b)];
    assert one + [WentOffline(b)] == ds + [WentOffline(b), WentOffline(b)];
    Snoc(ds, WentOffline(b), b);
    Snoc(one, WentOffline(b), b);
    var xs := DecisionsOf(one + [WentOffline(b)], b);
    assert xs[|xs| - 1] && xs[|xs| - 2];
  }

  predicate GenerationAtLeastOne(t: Table, id: nat) {
    && (id in t.armed ==> t.armed[id].generation >= 1)
    && (id in t.fired ==> t.fired[id].generation >= 1)
  }

  lemma StepKeepsGenerations(s: System, step: Step, id: nat)
    requires GenerationAtLeastOne(s.table, id)
    ensures GenerationAtLeastOne(Next(s, step).table, id)
  {
  }

  lemma {:induction false} GenerationsStartAtOne(steps: seq<Step>, id: nat)
    ensures GenerationAtLeastOne(After(INIT, steps).table, id)
  {
    if steps != [] {
      GenerationsStartAtOne(steps[..|steps| - 1], id);
      StepKeepsGenerations(After(INIT, steps[..|steps| - 1]), steps[|steps| - 1], id);
    }
  }

  lemma StaleCallbackBreaks(s: System, b: string, typ: string, stale: nat) returns (more: seq<Step>)
    requires b !in s.table.flap && stale in s.table.fired && stale < s.table.nextTimer
    requires s.table.fired[stale].backend == b && s.table.fired[stale].generation >= 1
    ensures CleanRun(Next(s, Disconnect(b, typ)), more)
    ensures !Alternating(After(Next(s, Disconnect(b, typ)), more).decisions, b)
  {
    var created := Next(s, Disconnect(b, typ));
    var n := s.table.fired[stale].generation - 1;
    Rearms(created, b, typ, n);
    var met := After(created, Disconnects(b, typ, n));
    var last := TwoOfflineInARow(met, b, stale);
    FoldConcat(Next, CreatesCleanly, created, Disconnects(b, typ, n), last);
    DecisionsOfTwo(s.decisions, b);
    more := Disconnects(b, typ, n) + last;
  }

  /**
  Main result, the other half: a disconnect that creates an entry at a cleanly reached state is
  followed by alternating decisions, whatever clean steps come next, if and only if no callback of
  that backend is still on its way to the lock.
  */
  lemma CleanCreationIsNeeded(steps: seq<Step>, b: string, typ: string)
    requires CleanRun(INIT, steps) && b !in After(INIT, steps).table.flap
    ensures var s := After(INIT, steps); var created := Next(s, Disconnect(b, typ));
            (forall more :: CleanRun(created, more) ==> Alternating(After(created, more).decisions, b))
            <==> NoneOutstanding(s.table, b)
  {
    var s := After(INIT, steps);
    var created := Next(s, Disconnect(b, typ));
    InitInv();
    CleanRunsKeepInv(INIT, steps);
    if NoneOutstanding(s.table, b) {
      NextKeepsInv(s, Disconnect(b, typ));
      forall more | CleanRun(created, more)
        ensures Alternating(After(created, more).decisions, b)
      {
        CleanRunsKeepInv(created, more);
      }
    } else {
      var stale :| stale in s.table.fired && s.table.fired[stale].backend == b;
      GenerationsStartAtOne(steps, stale);
      var more := StaleCallbackBreaks(s, b, typ, stale);
      assert !Alternating(After(created, more).decisions, b);
    }
  }

  // ---------------------------------------------------------------- turns and late reclaims

  /** The step does not end or restart the turn itself and confirms no new outage of its backend. */
  predicate SparesTurn(p: string, b: string, s: System, step: Step) {
    match step
    case TurnStarts(q, _) => q != p
    case TurnEnds(q) => q != p
    case CallbackRuns(id) => Posts(s.table, id) ==> s.table.fired[id].backend != b
    case _ => true
  }

  predicate SparingRun(p: string, b: string, s: System, steps: seq<Step>) {
    AllAlong(Next, (t, e) => SparesTurn(p, b, t, e), s, steps)
  }

  /** The turn is open and no reclaim of its backend is still to come. */
  predicate SafeTurn(s: System, p: string, b: string) {
    p in s.turns && s.turns[p] == b && b !in s.reclaiming
  }

  lemma SparedStep(s: System, step: Step, p: string, b: string)
    requires SafeTurn(s, p, b) && SparesTurn(p, b, s, step)
    ensures SafeTurn(Next(s, step), p, b)
  {
  }

  lemma {:induction false} SparedRun(s: System, steps: seq<Step>, p: string, b: string)
    requires SafeTurn(s, p, b) && SparingRun(p, b, s, steps)
    ensures SafeTurn(After(s, steps), p, b)
  {
    if steps != [] {
      SparedRun(s, steps[..|steps| - 1], p, b);
      SparedStep(After(s, steps[..|steps| - 1]), steps[|steps| - 1], p, b);
    }
  }

  /** Main result: an open turn survives every continuation without a new confirmed outage of its backend
      if and only if no earlier confirmed outage of that backend is still to be reclaimed. */
  lemma TurnSurvivesExactlyWhen(s: System, p: string, b: string)
    requires p in s.turns && s.turns[p] == b
    ensures (forall steps :: SparingRun(p, b, s, steps) ==> p in After(s, steps).turns) <==> b !in s.reclaiming
  {
    if b !in s.reclaiming {
      forall steps | SparingRun(p, b, s, steps) ensures p in After(s, steps).turns {
        SparedRun(s, steps, p, b);
      }
    } else {
      var steps := [TurnsReclaimed(b)];
      assert steps[..0] == [];
      assert AllAlong(Next, (t, e) => SparesTurn(p, b, t, e), s, steps[..0]);
      FoldSnoc(Next, s, [], TurnsReclaimed(b));
      assert [] + [TurnsReclaimed(b)] == steps;
      assert SparingRun(p, b, s, steps);
    }
  }

  lemma OutageArmed() returns (s: System)
    ensures s == Next(Next(INIT, Disconnect("b", "cli")), TimePasses(WINDOW))
    ensures s.table == Table(WINDOW, map["b" := Flap("cli", Some(0), false, 1)], map[0 := Callback("b", 1, 0)],
                             map[], 1, map["b" := Edge(false, 0)])
    ensures s.reclaiming == multiset{}
  {
    s := Next(Next(INIT, Disconnect("b", "cli")), TimePasses(WINDOW));
  }

  lemma OutageConfirmed(s: System) returns (s': System)
    requires s.table.now == WINDOW && s.table.flap == map["b" := Flap("cli", Some(0), false, 1)]
    requires s.table.armed == map[0 := Callback("b", 1, 0)] && s.reclaiming == multiset{}
    ensures s' == Next(Next(s, TimerElapses(0)), CallbackRuns(0))
    ensures s'.reclaiming == multiset{"b"}
  {
    var t := Next(s, TimerElapses(0));
    assert t.table.fired[0] == Callback("b", 1, 0);
    s' := Next(t, CallbackRuns(0));
  }

  lemma RecoveredWithNewTurn(s: System) returns (s': System)
    requires s.reclaiming == multiset{"b"}
    ensures s' == Next(Next(s, Connect("b")), TurnStarts("new", "b"))
    ensures s'.reclaiming == multiset{"b"} && "new" in s'.turns && s'.turns["new"] == "b"
    ensures "b" in s'.table.heard && s'.table.heard["b"].up
  {
    s' := Next(Next(s, Connect("b")), TurnStarts("new", "b"));
  }

  lemma SixSteps(s: System, xs: seq<Step>)
    requires |xs| == 6
    ensures After(s, xs) == Next(Next(Next(Next(Next(Next(s, xs[0]), xs[1]), xs[2]), xs[3]), xs[4]), xs[5])
  {
    var n := Next;
    FoldFront(n, s, xs);
    FoldFront(n, n(s, xs[0]), xs[1..]);
    FoldFront(n, n(n(s, xs[0]), xs[1]), xs[2..]);
    FoldFront(n, n(n(n(s, xs[0]), xs[1]), xs[2]), xs[3..]);
    FoldFront(n, n(n(n(n(s, xs[0]), xs[1]), xs[2]), xs[3]), xs[4..]);
    FoldFront(n, n(n(n(n(n(s, xs[0]), xs[1]), xs[2]), xs[3]), xs[4]), xs[5..]);
  }

  /** Reclaiming runs outside the lock: a recovered backend's new turn can still be swept away. */
  lemma LateReclaimHitsANewTurn() returns (steps: seq<Step>)
    ensures var s := After(INIT, steps);
            && "b" in s.table.heard && s.table.heard["b"].up
            && "new" in s.turns && s.turns["new"] == "b"
            && "new" !in Next(s, TurnsReclaimed("b")).turns
  {
    steps := [Disconnect("b", "cli"), TimePasses(WINDOW), TimerElapses(0), CallbackRuns(0),
              Connect("b"), TurnStarts("new", "b")];
    var s2 := OutageArmed();
    var s4 := OutageConfirmed(s2);
    var s6 := RecoveredWithNewTurn(s4);
    SixSteps(INIT, steps);
  }
}
