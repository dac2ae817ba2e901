/**
Exactly when a closed card stays as it is: the three ways a progress card ends (a terminal or picker,
internal/feishufront/dispatcher_control.go:377-382; a patch, lines 302-341; a reclaim,
internal/feishufront/dispatcher_backend.go:218-257), each against every way the run can go on.
*/
module FinalCards {
  import opened LateFrames
  import opened Runs

  predicate ShowsFrame(s: Cards, c: string) {
    c in s.trail.shown && s.trail.shown[c].Progress?
  }

  lemma UntouchedFront(steps: seq<Step>, c: string)
    requires Untouched(steps, c) && steps != []
    ensures Untouched(steps[..|steps| - 1], c) && !Touches(steps[|steps| - 1], c)
  {
    assert forall i :: 0 <= i < |steps| - 1 ==> steps[..|steps| - 1][i] == steps[i];
  }

  // ---------------------------------------------------------------- terminals and pickers

  /** Main result: a card that the pump has closed and that shows its final content keeps it in every
      continuation that does not rewrite it on purpose if and only if no batch holds a frame of it. */
  lemma ClosedStaysFinalExactlyWhen(past: seq<Step>, c: string)
    requires c in After(past).trail.closed && ShowsFinal(After(past), c)
    ensures (forall steps :: Untouched(steps, c) ==> ShowsFinal(After(past + steps), c)) <==> Quiet(After(past), c)
  {
    var s := After(past);
    if Quiet(s, c) {
      forall steps | Untouched(steps, c) ensures ShowsFinal(After(past + steps), c) {
        FinalForever(past, c, steps);
      }
    } else {
      var e := if c in s.buf.loop.frames then LoopSend(c, true) else PumpSend(c, true);
      FoldSnoc(Next, Begin(), past, e);
      assert Untouched([e], c) && ShowsFrame(After(past + [e]), c);
    }
  }

  // ---------------------------------------------------------------- how a frame gets to a card

  /** Steps of the ticker and of frames already let through: they rewrite no card on purpose. */
  predicate Ticking(e: Step) {
    e.LoopSwap? || e.LoopSend? || e.Frame? || e.Check? || e.Enqueue?
  }

  predicate AllTicking(steps: seq<Step>) {
    forall i :: 0 <= i < |steps| ==> Ticking(steps[i])
  }

  lemma TickingIsUntouched(steps: seq<Step>, c: string)
    requires AllTicking(steps)
    ensures Untouched(steps, c)
  {
  }

  lemma StepFirst(s: Cards, e: Step, rest: seq<Step>)
    ensures Fold(Next, s, [e] + rest) == Fold(Next, Next(s, e), rest)
  {
    FoldSnoc(Next, s, [], e);
    assert [] + [e] == [e];
    FoldConcat(Next, (_, _) => true, s, [e], rest);
  }

  lemma TickingFirst(e: Step, rest: seq<Step>)
    requires Ticking(e) && AllTicking(rest)
    ensures AllTicking([e] + rest)
  {
  }

  /** A frame in the ticker's hands can be shown at once. */
  lemma LoopFrameLands(s: Cards, c: string) returns (steps: seq<Step>)
    requires c in s.buf.loop.frames
    ensures AllTicking(steps) && ShowsFrame(Fold(Next, s, steps), c)
  {
    steps := [LoopSend(c, true)];
    StepFirst(s, LoopSend(c, true), []);
    assert [LoopSend(c, true)] + [] == steps;
  }

  /** A pending frame is shown after the ticker has sent what it holds and swapped again. */
  lemma PendingFrameLands(s: Cards, c: string) returns (steps: seq<Step>)
    requires c in s.buf.pending
    ensures AllTicking(steps) && ShowsFrame(Fold(Next, s, steps), c)
    decreases s.buf.loop.frames.Keys
  {
    if d :| d in s.buf.loop.frames {
      var t := Next(s, LoopSend(d, true));
      assert t.buf.loop.frames.Keys == s.buf.loop.frames.Keys - {d};
      var rest := PendingFrameLands(t, c);
      steps := [LoopSend(d, true)] + rest;
      StepFirst(s, LoopSend(d, true), rest);
      TickingFirst(LoopSend(d, true), rest);
    } else {
      var rest := LoopFrameLands(Next(s, LoopSwap), c);
      steps := [LoopSwap] + rest;
      StepFirst(s, LoopSwap, rest);
      TickingFirst(LoopSwap, rest);
    }
  }

  /** A frame the pump has let through is enqueued first. */
  lemma PassedFrameLands(s: Cards, c: string) returns (steps: seq<Step>)
    requires s.pc == Passed(c)
    ensures AllTicking(steps) && ShowsFrame(Fold(Next, s, steps), c)
  {
    var rest := PendingFrameLands(Next(s, Enqueue), c);
    steps := [Enqueue] + rest;
    StepFirst(s, Enqueue, rest);
    TickingFirst(Enqueue, rest);
  }

  lemma CheckedFrameLands(s: Cards, c: string) returns (steps: seq<Step>)
    requires s.pc == Checked(c) && !StopsFrames(s.tab, c)
    ensures AllTicking(steps) && ShowsFrame(Fold(Next, s, steps), c)
  {
    var rest := PassedFrameLands(Next(s, Check), c);
    steps := [Check] + rest;
    StepFirst(s, Check, rest);
    TickingFirst(Check, rest);
  }

  /** A turn still open on the card brings a new frame. */
  lemma OpenTurnLands(s: Cards, p: string, c: string) returns (steps: seq<Step>)
    requires s.pc.Idle? && p in s.tab.turns && s.tab.turns[p] == c && !StopsFrames(s.tab, c)
    ensures AllTicking(steps) && ShowsFrame(Fold(Next, s, steps), c)
  {
    var rest := CheckedFrameLands(Next(s, Frame(p)), c);
    steps := [Frame(p)] + rest;
    StepFirst(s, Frame(p), rest);
    TickingFirst(Frame(p), rest);
  }

  // ---------------------------------------------------------------- cards no frame can reach

  /** The pump has looked up a frame of the card and not enqueued it yet. */
  predicate InHand(pc: Pc, c: string) {
    (pc.Checked? || pc.Passed?) && pc.card == c
  }

  /** No frame of the card is anywhere on its way. */
  predicate Frameless(s: Cards, c: string) {
    c !in s.buf.pending && c !in s.buf.loop.frames && c !in PumpBatch(s.pc) && !InHand(s.pc, c)
  }

  /** Nor can a new one come: the card's turn is over. */
  predicate Inert(s: Cards, c: string) {
    c != "" && c in s.tab.owner && CardOf(s.tab, s.tab.owner[c]) != c && Frameless(s, c)
  }

  lemma BeginStaysInert(s: Cards, e: Step, c: string)
    requires Owned(s) && Inert(s, c) && s.pc.Idle? && (e.Terminal? || e.Frame? || e.PatchCard?)
    ensures Inert(BeginNext(s, e), c)
  {
  }

  lemma CloseStaysInert(s: Cards, ok: bool, c: string)
    requires Inert(s, c)
    ensures s.pc.Begun? ==> Inert(SwapNext(s), c)
    ensures s.pc.Sending? && s.pc.batch == map[] ==> Inert(MarkNext(s), c)
    ensures s.pc.Marked? ==> Inert(DeliverNext(s, ok), c)
    ensures s.pc.Delivered? ==> Inert(FinishNext(s), c)
    ensures s.pc.Finished? ==> Inert(CleanupNext(s), c)
  {
  }

  lemma FrameStaysInert(s: Cards, card: string, ok: bool, c: string)
    requires Inert(s, c)
    ensures s.pc.Sending? && card in s.pc.batch ==> Inert(SendNext(s, card, ok), c)
    ensures s.pc.Checked? ==> Inert(CheckNext(s), c)
    ensures s.pc.Passed? ==> Inert(EnqueueNext(s), c)
  {
  }

  lemma PumpStaysInert(s: Cards, e: Step, c: string)
    requires Owned(s) && Inert(s, c)
    ensures Inert(PumpNext(s, e), c)
  {
    match s.pc
    case Idle =>
      if e.Terminal? || e.Frame? || e.PatchCard? {
        BeginStaysInert(s, e, c);
      }
    case Begun(_, _, _) => CloseStaysInert(s, false, c);
    case Sending(_, _, _, _, _) =>
      if e.PumpSend? {
        FrameStaysInert(s, e.card, e.ok, c);
      } else {
        CloseStaysInert(s, false, c);
      }
    case Marked(_, _, _, _) =>
      if e.Deliver? {
        CloseStaysInert(s, e.ok, c);
      }
    case Delivered(_, _, _) => CloseStaysInert(s, false, c);
    case Finished(_) => CloseStaysInert(s, false, c);
    case Checked(_) => FrameStaysInert(s, "", false, c);
    case Passed(_) => FrameStaysInert(s, "", false, c);
  }

  lemma TableStaysInert(t: Table, prompt: string, card: string, prompts: set<string>, c: string)
    requires c != "" && c in t.owner && CardOf(t, t.owner[c]) != c
    ensures var u := StartNext(t, prompt, card); c in u.owner && CardOf(u, u.owner[c]) != c
    ensures var u := TurnFinished(t, prompt); c in u.owner && CardOf(u, u.owner[c]) != c
    ensures var u := ReclaimNext(t, prompts); c in u.owner && CardOf(u, u.owner[c]) != c
  {
  }

  lemma StepStaysInert(s: Cards, e: Step, c: string)
    requires Owned(s) && Inert(s, c)
    ensures Inert(Next(s, e), c)
  {
    match e
    case LoopSend(_, _) =>
    case LoopSwap =>
    case Start(prompt, card) => TableStaysInert(s.tab, prompt, card, {}, c);
    case Drop(prompt) => TableStaysInert(s.tab, prompt, "", {}, c);
    case Reclaim(prompts) => TableStaysInert(s.tab, "", "", prompts, c);
    case Invalidate(_, _) =>
    case MarkInvalid(_) =>
    case Release(_) =>
    case _ => PumpStaysInert(s, e, c);
  }

  /** What a card shows stayed, or its final content came. */
  predicate SameOrFinal(before: Trail, after: Trail, c: string) {
    if c in after.shown then after.shown[c] == Final || (c in before.shown && after.shown[c] == before.shown[c])
    else c !in before.shown
  }

  lemma PumpShowsNoFrame(s: Cards, e: Step, c: string)
    requires Inert(s, c) && !Touches(e, c)
    ensures var t := PumpNext(s, e); SameOrFinal(s.trail, t.trail, c)
  {
  }

  lemma StepShowsNoFrame(s: Cards, e: Step, c: string)
    requires Inert(s, c) && !Touches(e, c)
    ensures SameOrFinal(s.trail, Next(s, e).trail, c)
  {
    match e
    case LoopSend(_, _) =>
    case LoopSwap =>
    case Start(_, _) =>
    case Drop(_) =>
    case Reclaim(_) =>
    case Invalidate(_, _) =>
    case MarkInvalid(_) =>
    case Release(_) =>
    case _ => PumpShowsNoFrame(s, e, c);
  }

  lemma {:induction false} InertForEver(s: Cards, c: string, steps: seq<Step>)
    requires Owned(s) && Inert(s, c) && Untouched(steps, c)
    ensures var t := Fold(Next, s, steps);
            Owned(t) && Inert(t, c) && SameOrFinal(s.trail, t.trail, c)
  {
    if steps != [] {
      UntouchedFront(steps, c);
      InertForEver(s, c, steps[..|steps| - 1]);
      var t := Fold(Next, s, steps[..|steps| - 1]);
      StepKeepsOwned(t, steps[|steps| - 1]);
      StepStaysInert(t, steps[|steps| - 1], c);
      StepShowsNoFrame(t, steps[|steps| - 1], c);
    }
  }

  // ---------------------------------------------------------------- patches

  /** The patch branch carried through: update, turn, marker. */
  function Patched(s: Cards, p: string, c: string): Cards {
    Next(Next(Next(s, PatchCard(p, c, true, false)), Finish), Cleanup)
  }

  /** Nothing is pending for the card and its turn, if open, is the one the patch ends. */
  predicate PatchIsLast(s: Cards, p: string, c: string)
    requires c in s.tab.owner
  {
    && c !in s.buf.pending && c !in s.buf.loop.frames
    && (CardOf(s.tab, s.tab.owner[c]) == c ==> s.tab.owner[c] == p)
  }

  lemma PatchedState(s: Cards, p: string, c: string)
    requires Owned(s) && s.pc.Idle? && c in s.tab.owner
    ensures var t := Patched(s, p, c);
            && Owned(t) && t.pc.Idle? && ShowsFinal(t, c) && t.buf == s.buf
            && t.tab == CardCleaned(TurnFinished(s.tab, p), c)
  {
    var a := Next(s, PatchCard(p, c, true, false));
    StepKeepsOwned(s, PatchCard(p, c, true, false));
    StepKeepsOwned(a, Finish);
    StepKeepsOwned(Next(a, Finish), Cleanup);
  }

  lemma PatchedLoses(s: Cards, p: string, c: string) returns (steps: seq<Step>)
    requires Owned(s) && s.pc.Idle? && c in s.tab.owner && !PatchIsLast(s, p, c)
    ensures AllTicking(steps) && ShowsFrame(Fold(Next, Patched(s, p, c), steps), c)
  {
    var t := Patched(s, p, c);
    PatchedState(s, p, c);
    if c in s.buf.loop.frames {
      steps := LoopFrameLands(t, c);
    } else if c in s.buf.pending {
      steps := PendingFrameLands(t, c);
    } else {
      steps := OpenTurnLands(t, s.tab.owner[c], c);
    }
  }

  /** Main result: a card patched by the pump shows the patch in every continuation that does not rewrite
      it on purpose if and only if no frame of it was pending or with the ticker and no other prompt's
      turn is open on it. */
  lemma PatchStaysExactlyWhen(past: seq<Step>, p: string, c: string)
    requires After(past).pc.Idle? && c in After(past).tab.owner
    ensures var s := After(past);
            (forall steps :: Untouched(steps, c) ==> ShowsFinal(Fold(Next, Patched(s, p, c), steps), c))
            <==> PatchIsLast(s, p, c)
  {
    var s := After(past);
    var t := Patched(s, p, c);
    AlwaysShut(past, c);
    PatchedState(s, p, c);
    if PatchIsLast(s, p, c) {
      forall steps | Untouched(steps, c) ensures ShowsFinal(Fold(Next, t, steps), c) {
        InertForEver(t, c, steps);
      }
    } else {
      var steps := PatchedLoses(s, p, c);
      TickingIsUntouched(steps, c);
    }
  }

  // ---------------------------------------------------------------- reclaims

  lemma ReclaimedLoses(s: Cards, c: string) returns (steps: seq<Step>)
    requires At(s.tab, c, Updated) && MarkerPassing(s, c) && !Frameless(s, c)
    ensures Untouched(steps, c) && ShowsFrame(Fold(Next, s, steps), c)
  {
    if c in PumpBatch(s.pc) {
      steps := [PumpSend(c, true)];
      StepFirst(s, PumpSend(c, true), []);
      assert [PumpSend(c, true)] + [] == steps;
    } else {
      if c in s.buf.loop.frames {
        steps := LoopFrameLands(s, c);
      } else if c in s.buf.pending {
        steps := PendingFrameLands(s, c);
      } else if s.pc.Checked? {
        steps := CheckedFrameLands(s, c);
      } else {
        steps := PassedFrameLands(s, c);
      }
      TickingIsUntouched(steps, c);
    }
  }

  /** Main result: after a reclaim has put its failure card in place, no progress frame is ever shown over
      it in a continuation that does not rewrite it on purpose if and only if none was pending, in either
      goroutine's batch, or in the pump's hands. */
  lemma ReclaimStaysExactlyWhen(past: seq<Step>, c: string)
    requires At(After(past).tab, c, Updated) && Shows(After(past), c, Invalid)
    ensures var s := After(past);
            (forall steps :: Untouched(steps, c) ==> !ShowsFrame(Fold(Next, s, steps), c)) <==> Frameless(s, c)
  {
    var s := After(past);
    AlwaysShut(past, c);
    MarkerNeverStopsAFrame(past, c);
    if Frameless(s, c) {
      forall steps | Untouched(steps, c) ensures !ShowsFrame(Fold(Next, s, steps), c) {
        InertForEver(s, c, steps);
      }
    } else {
      var steps := ReclaimedLoses(s, c);
    }
  }
}
