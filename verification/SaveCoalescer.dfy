/**
Persistence of the session router (internal/router): bindings change under a lock, a one-slot
channel wakes a single worker, and Close does a last save. The class carries the locked sections;
the machine below interleaves them with the worker, failing writes and Close.
*/
module SaveCoalescer {
  import opened Runs

  datatype Binding = Binding(
    sessionID: string, directory: string, title: string, modelSpec: string,
    provider: string, thinking: string, maxIterations: int, configFile: string)

  type Bindings = map<string, Binding>

  const MAX_ATTEMPTS := 3

  /** What the router's lock and channel hold: the bindings, and whether the one slot has a signal. */
  datatype Memory = Memory(bindings: Bindings, signal: bool)

  function Bound(m: Memory, chatID: string, sessionID: string, directory: string, title: string,
                 modelSpec: string): Memory {
    Memory(m.bindings[chatID := Binding(sessionID, directory, title, modelSpec, "", "", 0, "")], true)
  }

  function Unbound(m: Memory, chatID: string): Memory {
    Memory(m.bindings - {chatID}, true)
  }

  /** A patch that changes nothing signals nothing. */
  function Patched(m: Memory, chatID: string, patch: Binding -> Binding): Memory {
    if chatID !in m.bindings || patch(m.bindings[chatID]) == m.bindings[chatID] then m
    else Memory(m.bindings[chatID := patch(m.bindings[chatID])], true)
  }

  class Router {
    var bindings: Bindings
    var saveCh: bool         // the one-slot channel holds a signal
    var disk: Bindings       // the file's contents

    ghost function View(): Memory
      reads this
    {
      Memory(bindings, saveCh)
    }

    /** A send that finds the slot taken is dropped: the signal already there stands for it. */
    method SaveAsync()
      modifies this`saveCh
      ensures View() == old(View()).(signal := true) && saveCh
    {
      if !saveCh {
        saveCh := true;
      }
    }

    method Bind(chatID: string, sessionID: string, directory: string, title: string, modelSpec: string)
      modifies this`bindings, this`saveCh
      ensures View() == Bound(old(View()), chatID, sessionID, directory, title, modelSpec)
      ensures bindings == old(bindings)[chatID := Binding(sessionID, directory, title, modelSpec, "", "", 0, "")]
      ensures saveCh
    {
      bindings := bindings[chatID := Binding(sessionID, directory, title, modelSpec, "", "", 0, "")];
      SaveAsync();
    }

    method Unbind(chatID: string)
      modifies this`bindings, this`saveCh
      ensures View() == Unbound(old(View()), chatID)
      ensures bindings == old(bindings) - {chatID} && saveCh
    {
      bindings := bindings - {chatID};
      SaveAsync();
    }

    /** Patches an existing binding; memory changes only together with a signal. */
    method Mutate(chatID: string, patch: Binding -> Binding) returns (changed: bool)
      modifies this`bindings, this`saveCh
      ensures View() == Patched(old(View()), chatID, patch)
      ensures changed <==> bindings != old(bindings)
      ensures changed <==> chatID in old(bindings) && patch(old(bindings)[chatID]) != old(bindings)[chatID]
      ensures changed ==> bindings == old(bindings)[chatID := patch(old(bindings)[chatID])] && saveCh
      ensures !changed ==> saveCh == old(saveCh)
    {
      if chatID !in bindings {
        return false;
      }
      var binding := patch(bindings[chatID]);
      if binding == bindings[chatID] {
        return false;
      }
      bindings := bindings[chatID := binding];
      assert bindings[chatID] != old(bindings)[chatID];
      SaveAsync();
      return true;
    }

    /** The retry loop of save, given what each write attempt would do. */
    method WriteWithRetries(payload: Bindings, succeeds: seq<bool>) returns (saved: bool, attempts: nat)
      requires |succeeds| == MAX_ATTEMPTS
      modifies this`disk
      ensures saved == (true in succeeds)
      ensures disk == if saved then payload else old(disk)
      ensures 0 < attempts <= 3 && forall i :: 0 <= i < attempts - 1 ==> !succeeds[i]
      ensures saved == succeeds[attempts - 1]
      ensures !saved ==> attempts == 3
    {
      attempts := 0;
      while attempts < MAX_ATTEMPTS
        invariant attempts <= MAX_ATTEMPTS
        invariant forall i :: 0 <= i < attempts ==> !succeeds[i]
        invariant disk == old(disk)
      {
        attempts := attempts + 1;
        if succeeds[attempts - 1] {
          disk := payload;
          return true, attempts;
        }
      }
      return false, attempts;
    }
  }

  // ---------------------------------------------------------------- the protocol

  datatype Worker = Idle | Received | Holding(version: nat, failures: nat) | Exited

  datatype Closer = Open | Stopping | Final(version: nat, failures: nat) | Closed(version: nat)

  /** Memory is the last element of `past`; snapshots and the disk are positions in it. */
  datatype State = State(
    past: seq<Bindings>,
    signal: bool,
    worker: Worker,
    closer: Closer,
    disk: nat,
    gaveUp: bool,        // the last save of the worker exhausted its attempts
    finalFailed: bool)   // the save in Close did

  datatype Step =
    | Bind(chatID: string, sessionID: string, directory: string, title: string, modelSpec: string)
    | Unbind(chatID: string)
    | Mutate(chatID: string, patch: Binding -> Binding)
    | WorkerTakesSignal
    | WorkerSnapshots
    | WorkerWrites(ok: bool)
    | WorkerSeesStop
    | CloseBegins
    | CloserSnapshots
    | CloserWrites(good: bool)

  function Newest(s: State): int {
    |s.past| - 1
  }

  function MemoryOf(s: State): Memory {
    Memory(if s.past == [] then map[] else s.past[|s.past| - 1], s.signal)
  }

  /** Memory moves on to a new state. */
  function Recorded(s: State, m: Memory): State {
    s.(past := s.past + [m.bindings], signal := m.signal)
  }

  function Next(s: State, step: Step): State {
    match step
    case Bind(c, session, directory, title, model) =>
      Recorded(s, Bound(MemoryOf(s), c, session, directory, title, model))
    case Unbind(c) => Recorded(s, Unbound(MemoryOf(s), c))
    case Mutate(c, patch) =>
      var m := Patched(MemoryOf(s), c, patch);
      if m == MemoryOf(s) then s else Recorded(s, m)
    case WorkerTakesSignal => if s.worker.Idle? && s.signal then s.(worker := Received, signal := false) else s
    case WorkerSnapshots =>
      if s.worker.Received? && s.past != [] then s.(worker := Holding(Newest(s), 0)) else s
    case WorkerWrites(ok) =>
      if !s.worker.Holding? then s
      else if ok then s.(disk := s.worker.version, worker := Idle, gaveUp := false)
      else if s.worker.failures + 1 == MAX_ATTEMPTS then s.(worker := Idle, gaveUp := true)
      else s.(worker := Holding(s.worker.version, s.worker.failures + 1))
    case WorkerSeesStop => if s.worker.Idle? && !s.closer.Open? then s.(worker := Exited) else s
    case CloseBegins => if s.closer.Open? then s.(closer := Stopping) else s
    case CloserSnapshots =>
      if s.closer.Stopping? && s.worker.Exited? && s.past != [] then s.(closer := Final(Newest(s), 0)) else s
    case CloserWrites(ok) =>
      if !s.closer.Final? then s
      else if ok then s.(disk := s.closer.version, closer := Closed(s.closer.version), gaveUp := false)
      else if s.closer.failures + 1 == MAX_ATTEMPTS then s.(closer := Closed(s.closer.version), finalFailed := true)
      else s.(closer := Final(s.closer.version, s.closer.failures + 1))
  }

  function After(loaded: Bindings, steps: seq<Step>): State {
    Fold(Next, State([loaded], false, Idle, Open, 0, false, false), steps)
  }

  /** Positions are ordered as the lock and the single writer order them. */
  predicate Ordered(s: State) {
    && s.disk <= Newest(s)
    && (s.worker.Holding? ==> s.disk <= s.worker.version <= Newest(s))
    && (s.worker.Holding? ==> s.worker.version == Newest(s) || s.signal)
    && (s.closer.Final? ==> s.disk <= s.closer.version <= Newest(s))
    && (s.closer.Final? ==> s.closer.version == Newest(s) || s.signal)
    && (s.closer.Final? || s.closer.Closed? ==> s.worker.Exited?)
    && (s.worker.Exited? ==> !s.closer.Open?)
    && (s.closer.Closed? ==> s.disk <= s.closer.version <= Newest(s))
    && (s.closer.Closed? && !s.finalFailed ==> s.disk == s.closer.version)
    && (s.finalFailed ==> s.closer.Closed?)
  }

  /** Everything in memory is on disk or on its way there. */
  predicate Accounted(s: State) {
    || s.disk == Newest(s)
    || s.signal
    || s.worker.Received?
    || (s.worker.Holding? && s.worker.version == Newest(s))
    || (s.closer.Final? && s.closer.version == Newest(s))
    || s.gaveUp || s.finalFailed
  }

  lemma NextKeepsOrder(s: State, step: Step)
    requires Ordered(s) && Accounted(s)
    ensures Ordered(Next(s, step)) && Accounted(Next(s, step))
    ensures s.disk <= Next(s, step).disk
    ensures s.past <= Next(s, step).past
  {
  }

  lemma {:induction false} RunsKeepOrder(loaded: Bindings, steps: seq<Step>)
    ensures Ordered(After(loaded, steps)) && Accounted(After(loaded, steps))
  {
    if steps != [] {
      RunsKeepOrder(loaded, steps[..|steps| - 1]);
      NextKeepsOrder(After(loaded, steps[..|steps| - 1]), steps[|steps| - 1]);
    }
  }

  /**
  Main result: at every point of every run, unless the save that ended last ran out of attempts, memory
  differs from the file only while a signal is pending, or the worker has taken one without a snapshot yet,
  or an unwritten snapshot is current.
  */
  lemma NothingIsLost(loaded: Bindings, steps: seq<Step>)
    ensures var s := After(loaded, steps);
            && s.disk <= Newest(s)
            && (!s.gaveUp && !s.finalFailed && s.past[s.disk] != s.past[Newest(s)] ==>
                  || s.signal
                  || s.worker.Received?
                  || (s.worker.Holding? && s.worker.version == Newest(s))
                  || (s.closer.Final? && s.closer.version == Newest(s)))
  {
    RunsKeepOrder(loaded, steps);
  }

  /** An idle worker with no signal means the file is up to date. */
  lemma IdleMeansSaved(loaded: Bindings, steps: seq<Step>)
    requires var s := After(loaded, steps);
             !s.gaveUp && !s.signal && s.worker.Idle?
    ensures var s := After(loaded, steps);
            s.disk <= Newest(s) && s.past[s.disk] == s.past[Newest(s)]
  {
    RunsKeepOrder(loaded, steps);
  }

  /** Main result: the file always holds some past memory state and never goes back to an older one. */
  lemma {:induction false} DiskNeverMovesBack(loaded: Bindings, steps: seq<Step>, i: nat)
    requires i <= |steps|
    ensures var early, late := After(loaded, steps[..i]), After(loaded, steps);
            early.disk <= late.disk < |late.past| && early.past <= late.past
  {
    RunsKeepOrder(loaded, steps);
    if i == |steps| {
      assert steps[..i] == steps;
    } else {
      var n := |steps| - 1;
      DiskNeverMovesBack(loaded, steps[..n], i);
      assert steps[..n][..i] == steps[..i];
      RunsKeepOrder(loaded, steps[..n]);
      NextKeepsOrder(After(loaded, steps[..n]), steps[n]);
    }
  }

  lemma ThreeSteps(s: State, x: Step, y: Step, z: Step)
    ensures Fold(Next, s, [x] + [y] + [z]) == Next(Next(Next(s, x), y), z)
  {
    FoldSnoc(Next, s, [], x);
    assert [] + [x] == [x];
    FoldSnoc(Next, s, [x], y);
    FoldSnoc(Next, s, [x] + [y], z);
  }

  lemma ThreeWrites(s: State, a: bool, b: bool, c: bool)
    requires s.worker.Holding? && s.worker.failures == 0
    ensures var t := Next(Next(Next(s, WorkerWrites(a)), WorkerWrites(b)), WorkerWrites(c));
            && t.worker.Idle? && t.past == s.past
            && t.disk == (if a || b || c then s.worker.version else s.disk)
            && t.gaveUp == !(a || b || c)
  {
  }

  /** The worker's write steps on one snapshot do to the file what the retry loop does. */
  lemma RetriesAreSteps(s: State, succeeds: seq<bool>)
    requires s.worker.Holding? && s.worker.failures == 0 && |succeeds| == MAX_ATTEMPTS
    ensures var writes := [WorkerWrites(succeeds[0])] + [WorkerWrites(succeeds[1])] + [WorkerWrites(succeeds[2])];
            var t := Fold(Next, s, writes);
            && t.worker.Idle? && t.past == s.past
            && t.disk == (if true in succeeds then s.worker.version else s.disk)
            && t.gaveUp == (true !in succeeds)
  {
    ThreeSteps(s, WorkerWrites(succeeds[0]), WorkerWrites(succeeds[1]), WorkerWrites(succeeds[2]));
    ThreeWrites(s, succeeds[0], succeeds[1], succeeds[2]);
    assert true in succeeds <==> succeeds[0] || succeeds[1] || succeeds[2];
  }

  /** And a pending signal can always be acted on: the worker's next three steps save what memory holds. */
  lemma SignalLeadsToASave(s: State)
    requires s.signal && s.worker.Idle? && s.past != []
    ensures var t := Fold(Next, s, [WorkerTakesSignal] + [WorkerSnapshots] + [WorkerWrites(true)]);
            t.disk == Newest(s) && t.past == s.past && t.worker.Idle? && !t.signal && !t.gaveUp
  {
    ThreeSteps(s, WorkerTakesSignal, WorkerSnapshots, WorkerWrites(true));
  }

  // ---------------------------------------------------------------- Close

  /** The callers' side of the contract: no change once Close has taken its snapshot. */
  predicate ChangesBeforeFinal(s: State, step: Step) {
    Next(s, step).past != s.past ==> s.closer.Open? || s.closer.Stopping?
  }

  predicate FinalIsNewest(s: State) {
    s.closer.Final? || s.closer.Closed? ==> s.closer.version == Newest(s)
  }

  lemma FinalStep(s: State, step: Step)
    requires FinalIsNewest(s) && ChangesBeforeFinal(s, step)
    ensures FinalIsNewest(Next(s, step))
  {
  }

  lemma {:induction false} FinalStaysNewest(loaded: Bindings, steps: seq<Step>)
    requires AllAlong(Next, ChangesBeforeFinal, State([loaded], false, Idle, Open, 0, false, false), steps)
    ensures FinalIsNewest(After(loaded, steps))
  {
    if steps != [] {
      FinalStaysNewest(loaded, steps[..|steps| - 1]);
      FinalStep(After(loaded, steps[..|steps| - 1]), steps[|steps| - 1]);
    }
  }

  /** Main result: if no change comes after Close's snapshot and its save succeeds, the file equals
      memory afterwards, even when every earlier save failed or its signal was left in the channel. */
  lemma CloseSavesEverything(loaded: Bindings, steps: seq<Step>)
    requires AllAlong(Next, ChangesBeforeFinal, State([loaded], false, Idle, Open, 0, false, false), steps)
    requires After(loaded, steps).closer.Closed? && !After(loaded, steps).finalFailed
    ensures var s := After(loaded, steps);
            s.disk <= Newest(s) && s.past[s.disk] == s.past[Newest(s)]
  {
    FinalStaysNewest(loaded, steps);
    RunsKeepOrder(loaded, steps);
  }

  /** Close can always be carried through: with the worker idle its steps save what memory holds. */
  lemma CloseLeadsToASave(s: State)
    requires s.closer.Open? && s.worker.Idle? && s.past != []
    ensures var stopped := Next(Next(s, CloseBegins), WorkerSeesStop);
            var t := Next(Next(stopped, CloserSnapshots), CloserWrites(true));
            t.disk == Newest(s) && t.past == s.past && t.closer == Closed(Newest(s)) && t.finalFailed == s.finalFailed
  {
  }

  lemma {:induction false} ClosedDiskIsFixed(s: State, more: seq<Step>)
    requires s.closer.Closed? && s.worker.Exited?
    ensures var s' := Fold(Next, s, more);
            s'.disk == s.disk && s'.closer == s.closer && s'.worker == s.worker && s.past <= s'.past
  {
    if more != [] {
      ClosedDiskIsFixed(s, more[..|more| - 1]);
    }
  }

  /** The last save closes the book: from a successful Close on, whatever is done later, no version but the one
      Close took is on file, and a change made after that one never gets there. */
  lemma AfterCloseTheFileIsFrozen(loaded: Bindings, steps: seq<Step>, more: seq<Step>)
    requires After(loaded, steps).closer.Closed? && !After(loaded, steps).finalFailed
    ensures var s, late := After(loaded, steps), After(loaded, steps + more);
            && late.disk == s.disk == s.closer.version < |s.past| <= |late.past|
            && late.past[late.disk] == s.past[s.closer.version]
  {
    RunsKeepOrder(loaded, steps);
    var s := After(loaded, steps);
    FoldConcat(Next, ChangesBeforeFinal, State([loaded], false, Idle, Open, 0, false, false), steps, more);
    ClosedDiskIsFixed(s, more);
    assert Ordered(After(loaded, steps + more)) by { RunsKeepOrder(loaded, steps + more); }
  }
}
