/**
Persistence of the chat routing table (internal/feishufront/routing.go). A change is made under the
table's lock, its snapshot is taken under the read lock afterwards, and the snapshot is written under
a third lock: three steps of each call to Set, which other calls may come between.
*/
module RoutingTable {
  import opened Options
  import opened Runs

  datatype Route = Route(backendID: string, updatedAt: int)

  type Routes = map<string, Route>

  /** The table, the file, the saves that have not taken their snapshot yet, and the snapshots waiting
      for the save lock. */
  datatype Table = Table(routes: Routes, disk: Routes, due: set<nat>, held: map<nat, Routes>, issued: nat)

  // ---------------------------------------------------------------- the locked sections

  function Changed(t: Table, routes: Routes): Table {
    t.(routes := routes, due := t.due + {t.issued}, issued := t.issued + 1)
  }

  function Snapped(t: Table, k: nat): Table {
    if k in t.due then t.(due := t.due - {k}, held := t.held[k := t.routes]) else t
  }

  function Written(t: Table, k: nat, ok: bool): Table {
    if k !in t.held then t
    else t.(held := t.held - {k}, disk := if ok then t.held[k] else t.disk)
  }

  predicate Stale(lastAccess: map<string, int>, chat: string, cutoff: int) {
    chat in lastAccess && lastAccess[chat] < cutoff
  }

  function Recent(routes: Routes, lastAccess: map<string, int>, cutoff: int): Routes {
    map c | c in routes && !Stale(lastAccess, c, cutoff) :: routes[c]
  }

  class Layer1Router {
    var routes: Routes
    var lastAccess: map<string, int>
    var disk: Routes
    ghost var due: set<nat>
    var held: map<nat, Routes>
    var issued: nat

    ghost function View(): Table
      reads this
    {
      Table(routes, disk, due, held, issued)
    }

    /** Set's section under the write lock. */
    method Bind(chatID: string, backendID: string, now: int) returns (k: nat)
      modifies this
      ensures View() == Changed(old(View()), old(routes)[chatID := Route(backendID, now)])
      ensures k == old(issued) && lastAccess == old(lastAccess)[chatID := now]
      ensures routes == old(routes)[chatID := Route(backendID, now)] && due == old(due) + {k}
      ensures held == old(held) && disk == old(disk) && issued == k + 1
    {
      routes := routes[chatID := Route(backendID, now)];
      lastAccess := lastAccess[chatID := now];
      k := issued;
      issued := issued + 1;
      due := due + {k};
    }

    /** Save's section under the read lock. */
    method Snapshot(k: nat)
      requires k in due
      modifies this
      ensures View() == Snapped(old(View()), k)
      ensures held == old(held)[k := routes] && due == old(due) - {k}
      ensures routes == old(routes) && disk == old(disk) && lastAccess == old(lastAccess)
    {
      held := held[k := routes];
      due := due - {k};
    }

    /** persistFile, under the save lock; `ok` is what the atomic write makes of it. */
    method PersistFile(k: nat, ok: bool)
      requires k in held
      modifies this
      ensures View() == Written(old(View()), k, ok)
      ensures disk == (if ok then old(held)[k] else old(disk)) && held == old(held) - {k}
      ensures routes == old(routes) && due == old(due) && lastAccess == old(lastAccess)
    {
      if ok {
        disk := held[k];
      }
      held := held - {k};
    }

    /** Set with nothing in between: the file holds the table afterwards. */
    method Set(chatID: string, backendID: string, now: int, ok: bool)
      modifies this
      ensures routes == old(routes)[chatID := Route(backendID, now)]
      ensures disk == if ok then routes else old(disk)
    {
      var k := Bind(chatID, backendID, now);
      Snapshot(k);
      PersistFile(k, ok);
    }

    /** Prune's section under the lock: drops the chats not heard of since the cutoff. */
    method PruneRoutes(ttl: int, now: int) returns (n: nat)
      modifies this`routes
      ensures ttl <= 0 ==> n == 0 && routes == old(routes)
      ensures ttl > 0 ==> routes == Recent(old(routes), lastAccess, now - ttl)
      ensures ttl > 0 ==> forall c ::
                c in routes <==> c in old(routes) && (c in lastAccess ==> now - lastAccess[c] <= ttl)
      ensures forall c :: c in routes ==> routes[c] == old(routes)[c]
      ensures n == |old(routes)| - |routes|
    {
      n := 0;
      if ttl <= 0 {
        return;
      }
      var todo := routes.Keys;
      while todo != {}
        invariant todo <= routes.Keys <= old(routes).Keys
        invariant forall c :: c in routes ==> routes[c] == old(routes)[c]
        invariant forall c :: c in old(routes) && c !in todo ==> (c in routes <==> !Stale(lastAccess, c, now - ttl))
        invariant n == |old(routes)| - |routes|
        decreases |todo|
      {
        var c :| c in todo;
        if c in lastAccess && lastAccess[c] < now - ttl {
          assert routes.Keys == (routes - {c}).Keys + {c};
          routes := routes - {c};
          n := n + 1;
        }
        todo := todo - {c};
      }
    }
  }

  // ---------------------------------------------------------------- overlapping calls

  datatype Step =
    | SetRoute(chat: string, route: Route)
    | PruneChats(chats: set<string>)
    | Snapshot(save: nat)
    | Persist(save: nat, ok: bool)

  /** A sweep that drops nothing saves nothing. */
  function Next(t: Table, e: Step): Table {
    match e
    case SetRoute(chat, route) => Changed(t, t.routes[chat := route])
    case PruneChats(chats) => if t.routes.Keys * chats == {} then t else Changed(t, t.routes - chats)
    case Snapshot(k) => Snapped(t, k)
    case Persist(k, ok) => Written(t, k, ok)
  }

  function Begin(loaded: Routes): Table {
    Table(loaded, loaded, {}, map[], 0)
  }

  function After(loaded: Routes, steps: seq<Step>): Table {
    Fold(Next, Begin(loaded), steps)
  }

  predicate Quiescent(t: Table) {
    t.due == {} && t.held == map[]
  }

  predicate IsChange(e: Step) {
    e.SetRoute? || e.PruneChats?
  }

  /** The table is left alone and every write works: what is left of the saves already begun. */
  predicate Settles(t: Table, e: Step) {
    !IsChange(e) && (e.Persist? ==> e.ok)
  }

  predicate SettlingRun(t: Table, steps: seq<Step>) {
    AllAlong(Next, Settles, t, steps)
  }

  /** No save holds an outdated snapshot, and with no save left the file is the table. */
  predicate UpToDate(t: Table) {
    && (forall k :: k in t.held ==> t.held[k] == t.routes)
    && (Quiescent(t) ==> t.disk == t.routes)
  }

  predicate Distinct(t: Table) {
    && t.due !! t.held.Keys
    && (forall k :: k in t.due ==> k < t.issued)
    && (forall k :: k in t.held ==> k < t.issued)
  }

  lemma {:induction false} AlwaysDistinct(loaded: Routes, steps: seq<Step>)
    ensures Distinct(After(loaded, steps))
  {
    if steps != [] {
      AlwaysDistinct(loaded, steps[..|steps| - 1]);
    }
  }

  lemma StepStaysUpToDate(t: Table, e: Step)
    requires UpToDate(t) && Settles(t, e)
    ensures UpToDate(Next(t, e)) && Next(t, e).routes == t.routes
  {
    if e.Persist? && e.save in t.held {
      assert t.held[e.save] == t.routes;
    } else if e.Snapshot? && e.save in t.due {
      assert e.save in Next(t, e).held;
    }
  }

  lemma {:induction false} SettlesUpToDate(t: Table, steps: seq<Step>)
    requires UpToDate(t) && SettlingRun(t, steps)
    ensures UpToDate(Fold(Next, t, steps)) && Fold(Next, t, steps).routes == t.routes
  {
    if steps != [] {
      SettlesUpToDate(t, steps[..|steps| - 1]);
      StepStaysUpToDate(Fold(Next, t, steps[..|steps| - 1]), steps[|steps| - 1]);
    }
  }

  lemma StepFirst(t: Table, e: Step, rest: seq<Step>)
    requires Settles(t, e)
    ensures Fold(Next, t, [e] + rest) == Fold(Next, Next(t, e), rest)
    ensures SettlingRun(t, [e] + rest) == SettlingRun(Next(t, e), rest)
  {
    FoldConcat(Next, Settles, t, [e], rest);
    assert [e][..0] == [];
    assert Fold(Next, t, [e]) == Next(t, e);
    assert AllAlong(Next, Settles, t, [e][..0]);
  }

  /** Every save takes its snapshot; `k` keeps the one it holds. */
  lemma SnapTheRest(t: Table, k: nat) returns (steps: seq<Step>)
    requires Distinct(t) && k in t.held
    ensures SettlingRun(t, steps)
    ensures var u := Fold(Next, t, steps);
            u.due == {} && Distinct(u) && k in u.held && u.held[k] == t.held[k] && u.routes == t.routes
    decreases t.due
  {
    steps := [];
    if j :| j in t.due {
      var rest := SnapTheRest(Next(t, Snapshot(j)), k);
      steps := [Snapshot(j)] + rest;
      StepFirst(t, Snapshot(j), rest);
    }
  }

  /** Every save but `k` is written. */
  lemma WriteTheRest(t: Table, k: nat) returns (steps: seq<Step>)
    requires t.due == {} && k in t.held
    ensures SettlingRun(t, steps)
    ensures var u := Fold(Next, t, steps);
            u.due == {} && u.held == map[k := t.held[k]] && u.routes == t.routes
    decreases t.held.Keys
  {
    steps := [];
    if j :| j in t.held && j != k {
      var u := Next(t, Persist(j, true));
      assert u.held.Keys == t.held.Keys - {j};
      var rest := WriteTheRest(u, k);
      steps := [Persist(j, true)] + rest;
      StepFirst(t, Persist(j, true), rest);
    }
  }

  /** An outdated snapshot can be the last one written. */
  lemma OutdatedCanWin(t: Table, k: nat) returns (steps: seq<Step>)
    requires Distinct(t) && k in t.held && t.held[k] != t.routes
    ensures SettlingRun(t, steps)
    ensures var u := Fold(Next, t, steps); Quiescent(u) && u.disk != u.routes
  {
    var snaps := SnapTheRest(t, k);
    var u := Fold(Next, t, snaps);
    var writes := WriteTheRest(u, k);
    FoldConcat(Next, Settles, t, snaps, writes);
    FoldSnoc(Next, t, snaps + writes, Persist(k, true));
    steps := (snaps + writes) + [Persist(k, true)];
    assert steps[..|snaps + writes|] == snaps + writes;
  }

  lemma {:induction false} SettledRoutes(t: Table, steps: seq<Step>)
    requires SettlingRun(t, steps)
    ensures Fold(Next, t, steps).routes == t.routes
  {
    if steps != [] {
      SettledRoutes(t, steps[..|steps| - 1]);
    }
  }

  /** Main result: once the table is left alone, the saves still outstanding bring the file to it in
      whatever order they finish if and only if no save holds an outdated snapshot and, with none left,
      the file is the table already. */
  lemma SettlesExactlyWhenUpToDate(loaded: Routes, past: seq<Step>)
    ensures var t := After(loaded, past);
            UpToDate(t) <==>
            forall steps :: SettlingRun(t, steps) && Quiescent(Fold(Next, t, steps)) ==>
              Fold(Next, t, steps).disk == t.routes
  {
    var t := After(loaded, past);
    AlwaysDistinct(loaded, past);
    if UpToDate(t) {
      forall steps | SettlingRun(t, steps) && Quiescent(Fold(Next, t, steps))
        ensures Fold(Next, t, steps).disk == t.routes
      {
        SettlesUpToDate(t, steps);
      }
    } else if k :| k in t.held && t.held[k] != t.routes {
      var steps := OutdatedCanWin(t, k);
      SettledRoutes(t, steps);
    } else {
      assert Fold(Next, t, []) == t && SettlingRun(t, []);
    }
  }

  // ---------------------------------------------------------------- whose table the file holds

  /** The save that wrote the file last, if one has. */
  function LastWriter(loaded: Routes, steps: seq<Step>): Option<nat> {
    if steps == [] then None
    else
      var before, e := steps[..|steps| - 1], steps[|steps| - 1];
      if e.Persist? && e.ok && e.save in After(loaded, before).held then Some(e.save)
      else LastWriter(loaded, before)
  }

  /** The table as it was when save `k` took its snapshot. */
  function SnapshotOf(loaded: Routes, steps: seq<Step>, k: nat): Option<Routes> {
    if steps == [] then None
    else
      var before, e := steps[..|steps| - 1], steps[|steps| - 1];
      if e == Snapshot(k) && k in After(loaded, before).due then Some(After(loaded, before).routes)
      else SnapshotOf(loaded, before, k)
  }

  lemma {:induction false} HeldIsItsSnapshot(loaded: Routes, steps: seq<Step>, k: nat)
    requires k in After(loaded, steps).held
    ensures SnapshotOf(loaded, steps, k) == Some(After(loaded, steps).held[k])
  {
    var before, e := steps[..|steps| - 1], steps[|steps| - 1];
    if !(e == Snapshot(k) && k in After(loaded, before).due) {
      HeldIsItsSnapshot(loaded, before, k);
    }
  }

  lemma {:induction false} WriterIsDone(loaded: Routes, steps: seq<Step>, k: nat)
    requires LastWriter(loaded, steps) == Some(k)
    ensures k !in After(loaded, steps).due && k < After(loaded, steps).issued
  {
    var before, e := steps[..|steps| - 1], steps[|steps| - 1];
    AlwaysDistinct(loaded, before);
    if !(e.Persist? && e.ok && e.save in After(loaded, before).held) {
      WriterIsDone(loaded, before, k);
    }
  }

  /** Main result: at every point of every run the file holds the table as it was when the save that
      wrote last took its snapshot; so the file equals the table exactly when that table is back. */
  lemma {:induction false} LastWriteDecides(loaded: Routes, steps: seq<Step>)
    ensures var t := After(loaded, steps); var w := LastWriter(loaded, steps);
            if w.None? then t.disk == loaded
            else SnapshotOf(loaded, steps, w.value) == Some(t.disk)
  {
    if steps != [] {
      var before, e := steps[..|steps| - 1], steps[|steps| - 1];
      LastWriteDecides(loaded, before);
      var w := LastWriter(loaded, before);
      if e.Persist? && e.save in After(loaded, before).held {
        HeldIsItsSnapshot(loaded, before, e.save);
      } else if w.Some? {
        WriterIsDone(loaded, before, w.value);
      }
    }
  }

  // ---------------------------------------------------------------- which runs are safe

  /** Writes work, and the table changes only while no snapshot waits for the save lock. */
  predicate Calm(t: Table, e: Step) {
    (e.Persist? ==> e.ok) && (IsChange(e) && Next(t, e).routes != t.routes ==> t.held == map[])
  }

  lemma CalmStep(t: Table, e: Step)
    requires UpToDate(t) && Calm(t, e)
    ensures UpToDate(Next(t, e))
  {
    if !IsChange(e) {
      StepStaysUpToDate(t, e);
    }
  }

  /** Main result: in every run that changes the table only while no snapshot is waiting, the file equals
      the table whenever no save is outstanding. */
  lemma {:induction false} CalmRunsSave(loaded: Routes, steps: seq<Step>)
    requires AllAlong(Next, Calm, Begin(loaded), steps)
    ensures UpToDate(After(loaded, steps))
  {
    if steps != [] {
      CalmRunsSave(loaded, steps[..|steps| - 1]);
      CalmStep(After(loaded, steps[..|steps| - 1]), steps[|steps| - 1]);
    }
  }

  /** Main result, the other half: after a calm run, a change of the table is saved in every continuation
      that leaves it alone if and only if no snapshot is waiting when it is made. */
  lemma CalmIsNeeded(loaded: Routes, past: seq<Step>, e: Step)
    requires AllAlong(Next, Calm, Begin(loaded), past)
    requires IsChange(e) && Next(After(loaded, past), e).routes != After(loaded, past).routes
    ensures var t := After(loaded, past); var u := Next(t, e);
            (forall steps :: SettlingRun(u, steps) && Quiescent(Fold(Next, u, steps)) ==>
               Fold(Next, u, steps).disk == u.routes)
            <==> t.held == map[]
  {
    var t := After(loaded, past);
    var u := Next(t, e);
    CalmRunsSave(loaded, past);
    FoldSnoc(Next, Begin(loaded), past, e);
    SettlesExactlyWhenUpToDate(loaded, past + [e]);
    if t.held == map[] {
      CalmStep(t, e);
    } else {
      var k :| k in t.held;
      assert u.held[k] == t.routes;
    }
  }

  /** Two overlapping calls of Set, the first one writing last: nothing is outstanding, every write
      worked, and the file lacks the second route. */
  lemma OverlapLosesARoute(loaded: Routes, a: string, b: string, ra: Route, rb: Route) returns (steps: seq<Step>)
    requires a != b && (b in loaded ==> loaded[b] != rb)
    ensures var t := After(loaded, steps);
            && Quiescent(t)
            && t.routes == loaded[a := ra][b := rb]
            && t.disk == loaded[a := ra] != t.routes
  {
    var t0 := Begin(loaded);
    steps := [] + [SetRoute(a, ra)];
    FoldSnoc(Next, t0, [], SetRoute(a, ra));
    FoldSnoc(Next, t0, steps, Snapshot(0));
    steps := steps + [Snapshot(0)];
    FoldSnoc(Next, t0, steps, SetRoute(b, rb));
    steps := steps + [SetRoute(b, rb)];
    FoldSnoc(Next, t0, steps, Snapshot(1));
    steps := steps + [Snapshot(1)];
    FoldSnoc(Next, t0, steps, Persist(1, true));
    steps := steps + [Persist(1, true)];
    FoldSnoc(Next, t0, steps, Persist(0, true));
    steps := steps + [Persist(0, true)];
    var t := After(loaded, steps);
    assert t.routes[b] == rb;
  }
}
