/**
Per-chat turn slots of a backend (internal/miniagent/handler_lifecycle.go): at most one turn runs per
chat, shutdown cancels and waits for all of them. Prompts and slash commands take slots the same way
(internal/miniagent/handler.go, internal/miniagent/commands.go). A turn is named by a number of its
own, as Go tells cancel entries apart by address.
*/
module TurnSlots {
  import opened Runs

  datatype Phase = Running | Released

  datatype Turn = Turn(chat: string, phase: Phase)

  /** The handler's fields, and every turn between its start and its Done. */
  datatype Slots = Slots(cancelBy: map<string, nat>, closed: bool, wg: int, cancelled: set<nat>,
                         live: map<nat, Turn>, issued: nat)

  function Begin(): Slots {
    Slots(map[], false, 0, {}, map[], 0)
  }

  // ---------------------------------------------------------------- the locked sections

  predicate CanStart(s: Slots, chat: string) {
    !s.closed && chat !in s.cancelBy
  }

  function Started(s: Slots, chat: string): Slots {
    if !CanStart(s, chat) then s
    else
      s.(cancelBy := s.cancelBy[chat := s.issued], wg := s.wg + 1,
         live := s.live[s.issued := Turn(chat, Running)], issued := s.issued + 1)
  }

  /** The first half of endTurn: give the slot back if it is still this turn's. */
  function SlotReleased(s: Slots, chat: string, mine: nat): Slots {
    s.(cancelBy := if chat in s.cancelBy && s.cancelBy[chat] == mine then s.cancelBy - {chat} else s.cancelBy,
       live := s.live[mine := Turn(chat, Released)])
  }

  /** The second half: the wait group hears of it. */
  function DoneCounted(s: Slots, mine: nat): Slots {
    s.(wg := s.wg - 1, live := s.live - {mine})
  }

  function Aborted(s: Slots, chat: string): Slots {
    if chat in s.cancelBy then s.(cancelled := s.cancelled + {s.cancelBy[chat]}) else s
  }

  function CloseBegun(s: Slots): Slots {
    s.(closed := true, cancelled := s.cancelled + s.cancelBy.Values)
  }

  class Handler {
    var cancelBy: map<string, nat>
    var closed: bool
    var wg: int
    var cancelled: set<nat>
    ghost var live: map<nat, Turn>
    var issued: nat

    ghost function View(): Slots
      reads this
    {
      Slots(cancelBy, closed, wg, cancelled, live, issued)
    }

    constructor ()
      ensures View() == Begin()
    {
      cancelBy, closed, wg, cancelled, live, issued := map[], false, 0, {}, map[], 0;
    }

    method StartTurn(chat: string) returns (mine: nat, ok: bool)
      modifies this
      ensures ok == CanStart(old(View()), chat) && View() == Started(old(View()), chat)
      ensures ok <==> !old(closed) && chat !in old(cancelBy)
      ensures ok ==> mine == old(issued) && cancelBy == old(cancelBy)[chat := mine] && wg == old(wg) + 1
      ensures !ok ==> cancelBy == old(cancelBy) && wg == old(wg)
      ensures closed == old(closed) && cancelled == old(cancelled)
    {
      if closed {
        return 0, false;
      }
      if chat in cancelBy {
        return 0, false;
      }
      mine := issued;
      issued := issued + 1;
      cancelBy := cancelBy[chat := mine];
      wg := wg + 1;
      live := live[mine := Turn(chat, Running)];
      return mine, true;
    }

    method ReleaseSlot(chat: string, mine: nat)
      modifies this
      ensures View() == SlotReleased(old(View()), chat, mine)
      ensures cancelBy == if chat in old(cancelBy) && old(cancelBy)[chat] == mine then old(cancelBy) - {chat}
                          else old(cancelBy)
      ensures wg == old(wg) && closed == old(closed) && cancelled == old(cancelled)
    {
      if chat in cancelBy && cancelBy[chat] == mine {
        cancelBy := cancelBy - {chat};
      }
      live := live[mine := Turn(chat, Released)];
    }

    method CountDone(mine: nat)
      modifies this
      ensures View() == DoneCounted(old(View()), mine) && wg == old(wg) - 1 && cancelBy == old(cancelBy)
      ensures closed == old(closed) && cancelled == old(cancelled)
    {
      wg := wg - 1;
      live := live - {mine};
    }

    method EndTurn(chat: string, mine: nat)
      modifies this
      ensures View() == DoneCounted(SlotReleased(old(View()), chat, mine), mine) && wg == old(wg) - 1
      ensures cancelBy == if chat in old(cancelBy) && old(cancelBy)[chat] == mine then old(cancelBy) - {chat}
                          else old(cancelBy)
    {
      ReleaseSlot(chat, mine);
      CountDone(mine);
    }

    method AbortChat(chat: string) returns (running: bool)
      modifies this
      ensures running == (chat in old(cancelBy)) && View() == Aborted(old(View()), chat)
      ensures cancelled == old(cancelled) + (if running then {cancelBy[chat]} else {})
      ensures cancelBy == old(cancelBy) && wg == old(wg) && closed == old(closed)
    {
      if chat in cancelBy {
        cancelled := cancelled + {cancelBy[chat]};
        return true;
      }
      return false;
    }

    /** Close up to the wait: no new turns, and everything running is cancelled. */
    method BeginClose()
      modifies this
      ensures View() == CloseBegun(old(View())) && closed && cancelBy == old(cancelBy) && wg == old(wg)
      ensures cancelled == old(cancelled) + cancelBy.Values
    {
      closed := true;
      var todo := cancelBy.Keys;
      ghost var before := cancelled;
      while todo != {}
        invariant todo <= cancelBy.Keys
        invariant cancelBy == old(cancelBy) && closed && wg == old(wg) && live == old(live) && issued == old(issued)
        invariant before <= cancelled <= before + cancelBy.Values
        invariant forall c :: c in cancelBy && c !in todo ==> cancelBy[c] in cancelled
        decreases |todo|
      {
        var chat :| chat in todo;
        cancelled := cancelled + {cancelBy[chat]};
        todo := todo - {chat};
      }
      assert cancelled == before + cancelBy.Values;
    }
  }

  // ---------------------------------------------------------------- every interleaving

  /** Steps of any goroutine. A turn's own goroutine releases its slot once, then counts itself done. */
  datatype Step = Start(chat: string) | Release(turn: nat) | Done(turn: nat) | Abort(chat: string) | Close

  predicate InPhase(s: Slots, turn: nat, phase: Phase) {
    turn in s.live && s.live[turn].phase == phase
  }

  function Next(s: Slots, e: Step): Slots {
    match e
    case Start(chat) => Started(s, chat)
    case Release(turn) => if InPhase(s, turn, Running) then SlotReleased(s, s.live[turn].chat, turn) else s
    case Done(turn) => if InPhase(s, turn, Released) then DoneCounted(s, turn) else s
    case Abort(chat) => Aborted(s, chat)
    case Close => CloseBegun(s)
  }

  function After(steps: seq<Step>): Slots {
    Fold(Next, Begin(), steps)
  }

  /** A running turn holds the slot of its chat: endTurn's comparison always succeeds. */
  predicate HoldsSlot(s: Slots, turn: nat) {
    InPhase(s, turn, Running) ==>
      var chat := s.live[turn].chat;
      chat in s.cancelBy && s.cancelBy[chat] == turn
  }

  /** A taken slot belongs to a running turn of that chat. */
  predicate SlotIsRunning(s: Slots, chat: string) {
    chat in s.cancelBy ==> s.cancelBy[chat] in s.live && s.live[s.cancelBy[chat]] == Turn(chat, Running)
  }

  function ReleasedTurns(live: map<nat, Turn>): set<nat> {
    set t | t in live && live[t].phase == Released
  }

  predicate Counted(s: Slots) {
    && s.wg == |s.live|
    && s.wg == |s.cancelBy| + |ReleasedTurns(s.live)|
    && forall t :: t in s.live ==> t < s.issued
  }

  /** Slots and running turns match, and nothing running outlives a close uncancelled. */
  predicate Held(s: Slots) {
    && (forall t :: t in s.live ==> HoldsSlot(s, t))
    && (forall c :: c in s.cancelBy ==> SlotIsRunning(s, c))
    && (s.closed ==> forall t :: t in s.live && s.live[t].phase == Running ==> t in s.cancelled)
  }

  predicate Valid(s: Slots) {
    Counted(s) && Held(s)
  }

  lemma OneMore<K, V>(m: map<K, V>, k: K, v: V)
    requires k !in m
    ensures |m[k := v]| == |m| + 1
  {
    assert m[k := v].Keys == m.Keys + {k};
  }

  lemma OneLess<K, V>(m: map<K, V>, k: K)
    requires k in m
    ensures |m| == |m - {k}| + 1
  {
    assert m.Keys == (m - {k}).Keys + {k};
  }

  lemma StartKeepsCounted(s: Slots, chat: string)
    requires Counted(s)
    ensures Counted(Started(s, chat))
  {
    if CanStart(s, chat) {
      var turn := Turn(chat, Running);
      OneMore(s.live, s.issued, turn);
      OneMore(s.cancelBy, chat, s.issued);
      assert ReleasedTurns(s.live[s.issued := turn]) == ReleasedTurns(s.live);
    }
  }

  lemma StartKeepsHeld(s: Slots, chat: string)
    requires Counted(s) && Held(s)
    ensures Held(Started(s, chat))
  {
    if CanStart(s, chat) {
      var t := Started(s, chat);
      assert s.issued !in s.live;
      forall u | u in t.live ensures HoldsSlot(t, u) {
        if u != s.issued {
          assert HoldsSlot(s, u);
        }
      }
      forall c | c in t.cancelBy ensures SlotIsRunning(t, c) {
        if c != chat {
          assert SlotIsRunning(s, c);
        }
      }
    }
  }

  lemma ReleaseKeepsCounted(s: Slots, turn: nat)
    requires Counted(s) && InPhase(s, turn, Running) && HoldsSlot(s, turn)
    ensures Counted(SlotReleased(s, s.live[turn].chat, turn))
  {
    var chat := s.live[turn].chat;
    var live := s.live[turn := Turn(chat, Released)];
    assert live.Keys == s.live.Keys;
    assert |live| == |s.live|;
    assert ReleasedTurns(live) == ReleasedTurns(s.live) + {turn};
    OneLess(s.cancelBy, chat);
  }

  lemma ReleaseKeepsHeld(s: Slots, turn: nat)
    requires Held(s) && InPhase(s, turn, Running)
    ensures Held(SlotReleased(s, s.live[turn].chat, turn))
  {
    var t := SlotReleased(s, s.live[turn].chat, turn);
    assert HoldsSlot(s, turn);
    forall u | u in t.live ensures HoldsSlot(t, u) {
      if u != turn {
        assert HoldsSlot(s, u);
      }
    }
    forall c | c in t.cancelBy ensures SlotIsRunning(t, c) {
      assert SlotIsRunning(s, c);
    }
  }

  lemma DoneKeepsCounted(s: Slots, turn: nat)
    requires Counted(s) && InPhase(s, turn, Released)
    ensures Counted(DoneCounted(s, turn))
  {
    OneLess(s.live, turn);
    assert ReleasedTurns(s.live) == ReleasedTurns(s.live - {turn}) + {turn};
  }

  lemma DoneKeepsHeld(s: Slots, turn: nat)
    requires Held(s) && InPhase(s, turn, Released)
    ensures Held(DoneCounted(s, turn))
  {
    var t := DoneCounted(s, turn);
    forall u | u in t.live ensures HoldsSlot(t, u) {
      assert HoldsSlot(s, u);
    }
    forall c | c in t.cancelBy ensures SlotIsRunning(t, c) {
      assert SlotIsRunning(s, c);
    }
  }

  lemma CloseKeepsValid(s: Slots)
    requires Valid(s)
    ensures Valid(CloseBegun(s))
  {
    var t := CloseBegun(s);
    forall u | u in t.live ensures HoldsSlot(t, u) && (t.live[u].phase == Running ==> u in t.cancelled) {
      assert HoldsSlot(s, u);
    }
    forall c | c in t.cancelBy ensures SlotIsRunning(t, c) {
      assert SlotIsRunning(s, c);
    }
  }

  lemma AbortKeepsValid(s: Slots, chat: string)
    requires Valid(s)
    ensures Valid(Aborted(s, chat))
  {
    var t := Aborted(s, chat);
    forall u | u in t.live ensures HoldsSlot(t, u) {
      assert HoldsSlot(s, u);
    }
    forall c | c in t.cancelBy ensures SlotIsRunning(t, c) {
      assert SlotIsRunning(s, c);
    }
  }

  lemma StepKeepsValid(s: Slots, e: Step)
    requires Valid(s)
    ensures Valid(Next(s, e))
  {
    match e
    case Start(chat) =>
      StartKeepsCounted(s, chat);
      StartKeepsHeld(s, chat);
    case Release(turn) =>
      if InPhase(s, turn, Running) {
        ReleaseKeepsCounted(s, turn);
        ReleaseKeepsHeld(s, turn);
      }
    case Done(turn) =>
      if InPhase(s, turn, Released) {
        DoneKeepsCounted(s, turn);
        DoneKeepsHeld(s, turn);
      }
    case Abort(chat) => AbortKeepsValid(s, chat);
    case Close => CloseKeepsValid(s);
  }

  /** Main result: in every interleaving the wait group counts the slots and the turns between giving
      theirs back and Done, every running turn holds its chat's slot, and once closed every turn still
      running has been cancelled. */
  lemma {:induction false} AlwaysValid(steps: seq<Step>)
    ensures Valid(After(steps))
  {
    if steps != [] {
      AlwaysValid(steps[..|steps| - 1]);
      StepKeepsValid(After(steps[..|steps| - 1]), steps[|steps| - 1]);
    }
  }

  /** Two turns of one chat never overlap. */
  lemma NoOverlap(steps: seq<Step>, t: nat, u: nat)
    requires InPhase(After(steps), t, Running) && InPhase(After(steps), u, Running)
    requires After(steps).live[t].chat == After(steps).live[u].chat
    ensures t == u
  {
    AlwaysValid(steps);
    assert HoldsSlot(After(steps), t) && HoldsSlot(After(steps), u);
  }

  /** A busy chat drops the prompt, a free one takes it, exactly: the slot table never lies. */
  lemma StartsExactlyWhenFree(steps: seq<Step>, chat: string)
    ensures var s := After(steps);
            CanStart(s, chat) <==> !s.closed && forall t :: InPhase(s, t, Running) ==> s.live[t].chat != chat
  {
    AlwaysValid(steps);
    var s := After(steps);
    if chat in s.cancelBy {
      assert SlotIsRunning(s, chat);
      assert InPhase(s, s.cancelBy[chat], Running);
    }
    forall t | InPhase(s, t, Running) ensures s.live[t].chat in s.cancelBy {
      assert HoldsSlot(s, t);
    }
  }

  /** Once closed is set the wait group never rises, and it stays closed. */
  lemma {:induction false} NeverRisesAfterClose(past: seq<Step>, steps: seq<Step>)
    requires After(past).closed
    ensures After(past + steps).closed && After(past + steps).wg <= After(past).wg
  {
    if steps == [] {
      assert past + steps == past;
    } else {
      var n := |steps| - 1;
      NeverRisesAfterClose(past, steps[..n]);
      assert (past + steps)[..|past| + n] == past + steps[..n];
    }
  }

  /** When Close's wait returns by itself, no turn is left, now or later. */
  lemma WaitMeansQuiet(past: seq<Step>, steps: seq<Step>)
    requires After(past).closed && After(past).wg == 0
    ensures After(past + steps).live == map[]
  {
    NeverRisesAfterClose(past, steps);
    AlwaysValid(past + steps);
    var s := After(past + steps);
    assert |s.live| == 0;
  }
}
