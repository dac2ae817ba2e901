/**
Progress frames against final cards. Frames are coalesced per card and sent in batches
(internal/feishufront/debouncer.go) by a ticking goroutine and by the control pump just before it
updates a card for the last time (internal/feishufront/dispatcher_control.go,
internal/feishufront/dispatcher_interactive.go); stranded turns are closed from a third place
(internal/feishufront/dispatcher_backend.go). Every locked section is one step of the machine below,
and so is every call to the chat service.
*/
module LateFrames {
  import opened Runs

  // ---------------------------------------------------------------- the state

  datatype Kind = Notice | Result | TakeOver | Patch

  /** Where the pump is. `card` is the turn's progress card, or "" without a turn. */
  datatype Pc =
    | Idle
    | Begun(kind: Kind, prompt: string, card: string)
    | Sending(kind: Kind, prompt: string, card: string, batch: map<string, nat>, at: nat)
    | Marked(kind: Kind, prompt: string, card: string, at: nat)
    | Delivered(kind: Kind, prompt: string, card: string)
    | Finished(card: string)
    | Checked(card: string)
    | Passed(card: string)

  /** A batch in the ticking goroutine's hands, and when it was swapped out. */
  datatype Batch = Batch(frames: map<string, nat>, at: nat)

  /** Frames are numbered as they are enqueued. */
  datatype Buffer = Buffer(pending: map<string, nat>, loop: Batch, lost: seq<nat>, sent: seq<nat>, issued: nat)

  datatype Stage = Listed | Updated | Closing

  /** Open turns, finalized markers, which prompt each card was sent for, cards being reclaimed. */
  datatype Table = Table(turns: map<string, string>, finalized: set<string>, owner: map<string, string>,
                         doomed: map<string, Stage>)

  datatype Shown = Progress(frame: nat) | Final | Invalid

  /** When the pump swapped out the frames of a card it is closing, and what each card shows. */
  datatype Trail = Trail(closed: map<string, nat>, shown: map<string, Shown>)

  datatype Cards = Cards(buf: Buffer, tab: Table, pc: Pc, trail: Trail, now: nat)

  function Begin(): Cards {
    Cards(Buffer(map[], Batch(map[], 0), [], [], 0), Table(map[], {}, map[], map[]), Idle, Trail(map[], map[]), 1)
  }

  // ---------------------------------------------------------------- the steps

  datatype Step =
    | Start(prompt: string, card: string)
    | Drop(prompt: string)   // the backend could not be sent its event
    | Terminal(kind: Kind, prompt: string)
    | PumpSwap
    | PumpSend(card: string, ok: bool)
    | Mark
    | Deliver(ok: bool)
    | Finish
    | Cleanup
    | Frame(prompt: string)
    | Check
    | Enqueue
    | PatchCard(prompt: string, card: string, ok: bool, sent: bool)   // sent: a fresh card for one that is gone
    | LoopSwap
    | LoopSend(card: string, ok: bool)
    | Reclaim(prompts: set<string>)
    | Invalidate(card: string, ok: bool)
    | MarkInvalid(card: string)
    | Release(card: string)

  /** A card is sent for one prompt only: the chat service never repeats a message id. */
  function StartNext(t: Table, prompt: string, card: string): Table {
    if card == "" || card in t.owner then t
    else t.(turns := t.turns[prompt := card], owner := t.owner[card := prompt])
  }

  function CardOf(t: Table, prompt: string): string {
    if prompt in t.turns then t.turns[prompt] else ""
  }

  function TurnFinished(t: Table, prompt: string): Table {
    t.(turns := t.turns - {prompt})
  }

  function CardMarked(t: Table, card: string): Table {
    if card == "" then t else t.(finalized := t.finalized + {card})
  }

  function CardCleaned(t: Table, card: string): Table {
    if card == "" then t else t.(finalized := t.finalized - {card})
  }

  /** The check of updateCard. */
  predicate StopsFrames(t: Table, card: string) {
    card in t.finalized
  }

  function Show(t: Trail, card: string, what: Shown, ok: bool): Trail {
    if ok then t.(shown := t.shown[card := what]) else t
  }

  /** The pump begins a control; only it does, one control at a time. */
  function BeginNext(s: Cards, e: Step): Cards
    requires s.pc.Idle? && (e.Terminal? || e.Frame? || e.PatchCard?)
  {
    match e
    case Terminal(kind, prompt) =>
      if kind == Patch || (kind == TakeOver && prompt !in s.tab.turns) then s
      else s.(pc := Begun(kind, prompt, CardOf(s.tab, prompt)))
    case Frame(prompt) =>
      if prompt in s.tab.turns then s.(pc := Checked(s.tab.turns[prompt])) else s
    case PatchCard(prompt, card, ok, sent) =>
      s.(trail := Show(s.trail, card, Final, ok), pc := if ok || sent then Delivered(Patch, prompt, card) else Idle)
  }

  /** The buffer after its frames have been handed out. */
  function SwappedOut(b: Buffer): Buffer {
    b.(pending := map[])
  }

  function SwapNext(s: Cards): Cards
    requires s.pc.Begun?
  {
    var c := s.pc.card;
    s.(pc := Sending(s.pc.kind, s.pc.prompt, c, s.buf.pending, s.now),
       buf := SwappedOut(s.buf),
       trail := if c == "" then s.trail else s.trail.(closed := s.trail.closed[c := s.now]))
  }

  function SendNext(s: Cards, card: string, ok: bool): Cards
    requires s.pc.Sending? && card in s.pc.batch
  {
    var f := s.pc.batch[card];
    s.(pc := s.pc.(batch := s.pc.batch - {card}),
       buf := s.buf.(sent := s.buf.sent + [f]),
       trail := Show(s.trail, card, Progress(f), ok))
  }

  /** After the flush: a notice or result marks its card, a picker finishes its turn. */
  function MarkNext(s: Cards): Cards
    requires s.pc.Sending?
  {
    var c := s.pc.card;
    s.(pc := Marked(s.pc.kind, s.pc.prompt, c, s.pc.at),
       tab := if s.pc.kind == TakeOver then TurnFinished(s.tab, s.pc.prompt) else CardMarked(s.tab, c))
  }

  /** A notice and a picker update the progress card in place; a result leaves it as it is. */
  function DeliverNext(s: Cards, ok: bool): Cards
    requires s.pc.Marked?
  {
    s.(pc := if s.pc.kind == TakeOver then Idle else Delivered(s.pc.kind, s.pc.prompt, s.pc.card),
       trail := if s.pc.kind == Result || s.pc.card == "" then s.trail else Show(s.trail, s.pc.card, Final, ok))
  }

  function FinishNext(s: Cards): Cards
    requires s.pc.Delivered?
  {
    s.(pc := Finished(s.pc.card), tab := TurnFinished(s.tab, s.pc.prompt))
  }

  function CleanupNext(s: Cards): Cards
    requires s.pc.Finished?
  {
    s.(pc := Idle, tab := CardCleaned(s.tab, s.pc.card))
  }

  function CheckNext(s: Cards): Cards
    requires s.pc.Checked?
  {
    s.(pc := if StopsFrames(s.tab, s.pc.card) then Idle else Passed(s.pc.card))
  }

  /** The latest frame of a card wins; the one it replaces is never sent. */
  function Enqueued(b: Buffer, c: string): Buffer {
    b.(pending := b.pending[c := b.issued],
       lost := if c in b.pending then b.lost + [b.pending[c]] else b.lost,
       issued := b.issued + 1)
  }

  function EnqueueNext(s: Cards): Cards
    requires s.pc.Passed?
  {
    s.(pc := Idle, buf := Enqueued(s.buf, s.pc.card))
  }

  function LoopSwapped(b: Buffer, at: nat): Buffer {
    SwappedOut(b).(loop := Batch(b.pending, at))
  }

  function LoopSent(b: Buffer, card: string): Buffer
    requires card in b.loop.frames
  {
    b.(loop := Batch(b.loop.frames - {card}, b.loop.at), sent := b.sent + [b.loop.frames[card]])
  }

  function LoopSwapNext(s: Cards): Cards {
    if s.buf.loop.frames != map[] then s else s.(buf := LoopSwapped(s.buf, s.now))
  }

  function LoopSendNext(s: Cards, card: string, ok: bool): Cards
    requires card in s.buf.loop.frames
  {
    s.(buf := LoopSent(s.buf, card), trail := Show(s.trail, card, Progress(s.buf.loop.frames[card]), ok))
  }

  function ReclaimNext(t: Table, prompts: set<string>): Table {
    t.(turns := t.turns - prompts,
       doomed := t.doomed + map c | c in t.owner && t.owner[c] in prompts && CardOf(t, t.owner[c]) == c :: Listed)
  }

  predicate At(t: Table, card: string, stage: Stage) {
    card in t.doomed && t.doomed[card] == stage
  }

  function PumpNext(s: Cards, e: Step): Cards {
    match s.pc
    case Idle => if e.Terminal? || e.Frame? || e.PatchCard? then BeginNext(s, e) else s
    case Begun(_, _, _) => if e.PumpSwap? then SwapNext(s) else s
    case Sending(_, _, _, batch, _) =>
      if e.PumpSend? && e.card in batch then SendNext(s, e.card, e.ok)
      else if e.Mark? && batch == map[] then MarkNext(s)
      else s
    case Marked(_, _, _, _) => if e.Deliver? then DeliverNext(s, e.ok) else s
    case Delivered(_, _, _) => if e.Finish? then FinishNext(s) else s
    case Finished(_) => if e.Cleanup? then CleanupNext(s) else s
    case Checked(_) => if e.Check? then CheckNext(s) else s
    case Passed(_) => if e.Enqueue? then EnqueueNext(s) else s
  }

  function ReclaimerNext(s: Cards, e: Step): Cards {
    match e
    case Reclaim(prompts) => s.(tab := ReclaimNext(s.tab, prompts))
    case Invalidate(c, ok) =>
      if !At(s.tab, c, Listed) then s
      else s.(trail := Show(s.trail, c, Invalid, ok),
              tab := s.tab.(doomed := s.tab.doomed[c := if ok then Updated else Closing]))
    case MarkInvalid(c) =>
      if !At(s.tab, c, Updated) then s
      else s.(tab := s.tab.(finalized := s.tab.finalized + {c}, doomed := s.tab.doomed[c := Closing]))
    case Release(c) =>
      if !At(s.tab, c, Closing) then s
      else s.(tab := s.tab.(finalized := s.tab.finalized - {c}, doomed := s.tab.doomed - {c}))
    case _ => s
  }

  /** One step of anybody; a step that is not possible changes nothing. */
  function Act(s: Cards, e: Step): Cards {
    match e
    case Start(prompt, card) => s.(tab := StartNext(s.tab, prompt, card))
    case Drop(prompt) => s.(tab := TurnFinished(s.tab, prompt))
    case LoopSwap => LoopSwapNext(s)
    case LoopSend(card, ok) => if card in s.buf.loop.frames then LoopSendNext(s, card, ok) else s
    case Reclaim(_) => ReclaimerNext(s, e)
    case Invalidate(_, _) => ReclaimerNext(s, e)
    case MarkInvalid(_) => ReclaimerNext(s, e)
    case Release(_) => ReclaimerNext(s, e)
    case _ => PumpNext(s, e)
  }

  function Next(s: Cards, e: Step): Cards {
    Act(s, e).(now := s.now + 1)
  }

  function After(steps: seq<Step>): Cards {
    Fold(Next, Begin(), steps)
  }

  // ---------------------------------------------------------------- the debouncer

  /** A call to the chat service: an update of an existing card, or a card of its own. */
  datatype Sent = Update(card: string, cardID: string, what: Shown) | Fresh

  /** The log grew by every pending frame, once each, and then by `last`. */
  ghost predicate FlushedThen(before: seq<Sent>, pending: map<string, nat>, ids: map<string, string>,
                              after: seq<Sent>, last: seq<Sent>) {
    var n := |before| + |pending|;
    && |after| == n + |last|
    && after[..|before|] == before
    && after[n..] == last
    && forall c :: c in pending && c in ids ==> Update(c, ids[c], Progress(pending[c])) in after[|before|..n]
  }

  class CardDebouncer {
    var pending: map<string, nat>
    var cardIDs: map<string, string>
    var issued: nat
    ghost var lost: seq<nat>
    ghost var sent: seq<nat>
    ghost var log: seq<Sent>

    ghost predicate Valid()
      reads this
    {
      pending.Keys == cardIDs.Keys
    }

    /** The buffer with nothing in the ticker's hands. */
    ghost function View(): Buffer
      reads this
    {
      Buffer(pending, Batch(map[], 0), lost, sent, issued)
    }

    constructor ()
      ensures Valid() && View() == Begin().buf && log == []
    {
      pending, cardIDs, issued, lost, sent, log := map[], map[], 0, [], [], [];
    }

    method Enqueue(card: string, cardID: string)
      requires Valid()
      modifies this
      ensures Valid() && log == old(log)
      ensures View() == Enqueued(old(View()), card) && cardIDs == old(cardIDs)[card := cardID]
      ensures pending == old(pending)[card := old(issued)] && issued == old(issued) + 1 && sent == old(sent)
      ensures lost == old(lost) + if card in old(pending) then [old(pending)[card]] else []
    {
      if card in pending {
        lost := lost + [pending[card]];
      }
      pending := pending[card := issued];
      cardIDs := cardIDs[card := cardID];
      issued := issued + 1;
    }

    method Swap() returns (batch: map<string, nat>, ids: map<string, string>)
      requires Valid()
      modifies this
      ensures Valid() && View() == SwappedOut(old(View())) && log == old(log)
      ensures batch == old(pending) && ids == old(cardIDs) && pending == map[] && cardIDs == map[]
      ensures issued == old(issued) && lost == old(lost) && sent == old(sent)
    {
      batch, ids := pending, cardIDs;
      pending, cardIDs := map[], map[];
    }

    /** Every pending frame is sent exactly once, to its own card, in some order. */
    method Flush()
      requires Valid()
      modifies this
      ensures Valid() && View() == SwappedOut(old(View())).(sent := sent) && pending == map[] && cardIDs == map[]
      ensures FlushedThen(old(log), old(pending), old(cardIDs), log, [])
    {
      var batch, ids := Swap();
      var todo := batch.Keys;
      while todo != {}
        invariant Valid() && View() == SwappedOut(old(View())).(sent := sent)
        invariant todo <= batch.Keys && |log| == |old(log)| + |batch| - |todo|
        invariant log[..|old(log)|] == old(log)
        invariant forall c :: c in batch && c !in todo ==> Update(c, ids[c], Progress(batch[c])) in log[|old(log)|..]
        decreases |todo|
      {
        var c :| c in todo;
        ghost var before := log[|old(log)|..];
        sent := sent + [batch[c]];
        log := log + [Update(c, ids[c], Progress(batch[c]))];
        assert log[|old(log)|..] == before + [Update(c, ids[c], Progress(batch[c]))];
        todo := todo - {c};
      }
      assert log[|old(log)|..|log|] == log[|old(log)|..];
    }

    /** The chat service is called at once. */
    method CallNow(call: Sent)
      requires Valid()
      modifies this`log
      ensures Valid() && log == old(log) + [call]
    {
      log := log + [call];
    }
  }

  lemma ThenOneMore(before: seq<Sent>, pending: map<string, nat>, ids: map<string, string>, mid: seq<Sent>,
                    last: seq<Sent>, one: Sent)
    requires FlushedThen(before, pending, ids, mid, last)
    ensures FlushedThen(before, pending, ids, mid + [one], last + [one])
  {
    var n := |before| + |pending|;
    assert (mid + [one])[..|before|] == mid[..|before|];
    assert (mid + [one])[|before|..n] == mid[|before|..n];
    assert (mid + [one])[n..] == mid[n..] + [one];
  }

  // ---------------------------------------------------------------- the dispatcher's card paths

  /** On cards whose frames wait with their own ids, the ids flushed are those of the cards. */
  lemma FlushedToEntities(before: seq<Sent>, pending: map<string, nat>, ids: map<string, string>,
                          entities: map<string, string>, after: seq<Sent>, last: seq<Sent>)
    requires FlushedThen(before, pending, ids, after, last)
    requires forall c :: c in pending ==> c in ids && c in entities && ids[c] == entities[c]
    ensures FlushedThen(before, pending, entities, after, last)
  {
  }

  /** The dispatcher's turns and markers in front of its debouncer, one control at a time. */
  class CardFront {
    const debouncer: CardDebouncer
    var turns: map<string, string>
    var entities: map<string, string>   // card -> CardKit entity id
    var finalized: set<string>
    ghost var owner: map<string, string>
    ghost var doomed: map<string, Stage>

    /** Open turns have a card, and every card of a turn its entity id. */
    ghost predicate Sane()
      reads this, debouncer
    {
      && debouncer.Valid() && entities.Keys == owner.Keys
      && forall p :: p in turns ==> turns[p] != "" && turns[p] in entities
    }

    /** And a frame waits with the entity id of its own card. */
    ghost predicate Valid()
      reads this, debouncer
    {
      && Sane()
      && forall c :: c in debouncer.pending ==> c in entities && debouncer.cardIDs[c] == entities[c]
    }

    ghost function View(): Table
      reads this
    {
      Table(turns, finalized, owner, doomed)
    }

    constructor ()
      ensures Valid() && fresh(debouncer) && View() == Begin().tab && debouncer.log == []
    {
      debouncer := new CardDebouncer();
      turns, entities, finalized, owner, doomed := map[], map[], {}, map[], map[];
    }

    function EntityOf(card: string): string
      reads this
    {
      if card in entities then entities[card] else ""
    }

    method StartTurn(prompt: string, card: string, cardID: string)
      requires Valid() && card != "" && card !in owner
      modifies this
      ensures Valid() && View() == StartNext(old(View()), prompt, card) && entities == old(entities)[card := cardID]
      ensures turns == old(turns)[prompt := card] && finalized == old(finalized)
    {
      turns := turns[prompt := card];
      owner := owner[card := prompt];
      entities := entities[card := cardID];
    }

    method UpdateCard(card: string, cardID: string)
      requires Sane()
      modifies debouncer
      ensures Sane() && debouncer.log == old(debouncer.log)
      ensures debouncer.View() ==
              if StopsFrames(View(), card) then old(debouncer.View()) else Enqueued(old(debouncer.View()), card)
      ensures if card in finalized then debouncer.pending == old(debouncer.pending)
              else debouncer.pending == old(debouncer.pending)[card := old(debouncer.issued)]
      ensures debouncer.cardIDs ==
              if card in finalized then old(debouncer.cardIDs) else old(debouncer.cardIDs)[card := cardID]
    {
      if card in finalized {
        return;
      }
      debouncer.Enqueue(card, cardID);
    }

    /** Without an open turn a progress control leaves no trace. */
    method UpdateProgress(prompt: string)
      requires Valid()
      modifies debouncer
      ensures Valid() && debouncer.log == old(debouncer.log)
      ensures debouncer.View() ==
              if prompt in turns && !StopsFrames(View(), turns[prompt])
              then Enqueued(old(debouncer.View()), turns[prompt]) else old(debouncer.View())
      ensures if prompt in turns && turns[prompt] !in finalized then
                && debouncer.pending == old(debouncer.pending)[turns[prompt] := old(debouncer.issued)]
                && debouncer.cardIDs == old(debouncer.cardIDs)[turns[prompt] := entities[turns[prompt]]]
              else debouncer.pending == old(debouncer.pending) && debouncer.cardIDs == old(debouncer.cardIDs)
    {
      if prompt !in turns {
        return;
      }
      UpdateCard(turns[prompt], EntityOf(turns[prompt]));
    }

    method Finish(prompt: string)
      modifies this`turns
      ensures View() == TurnFinished(old(View()), prompt) && (old(Valid()) ==> Valid())
      ensures turns == old(turns) - {prompt}
    {
      turns := turns - {prompt};
    }

    method MarkFinalized(card: string)
      modifies this`finalized
      ensures View() == CardMarked(old(View()), card) && (old(Valid()) ==> Valid())
      ensures finalized == if card == "" then old(finalized) else old(finalized) + {card}
    {
      if card == "" {
        return;
      }
      finalized := finalized + {card};
    }

    method CleanupProgress(card: string)
      modifies this`finalized
      ensures View() == CardCleaned(old(View()), card) && (old(Valid()) ==> Valid())
      ensures finalized == if card == "" then old(finalized) else old(finalized) - {card}
    {
      if card != "" {
        finalized := finalized - {card};
      }
    }

    /** Sends out every pending frame, on its own card. */
    method FlushAll()
      requires Valid()
      modifies debouncer
      ensures Valid() && debouncer.View() == SwappedOut(old(debouncer.View())).(sent := debouncer.sent)
      ensures debouncer.pending == map[]
      ensures FlushedThen(old(debouncer.log), old(debouncer.pending), entities, debouncer.log, [])
    {
      debouncer.Flush();
      FlushedToEntities(old(debouncer.log), old(debouncer.pending), old(debouncer.cardIDs), entities, debouncer.log,
                        []);
    }

    /** Closes a card: an update in place if it is tried, and a card of its own where that fails. */
    method CloseCard(tries: bool, card: string, cardID: string, ok: bool, ghost before: seq<Sent>,
                     ghost pending: map<string, nat>)
      requires Valid() && FlushedThen(before, pending, entities, debouncer.log, [])
      modifies debouncer`log
      ensures Valid()
      ensures FlushedThen(before, pending, entities, debouncer.log,
                          if !tries then [Fresh]
                          else if ok then [Update(card, cardID, Final)] else [Update(card, cardID, Final), Fresh])
    {
      hide FlushedThen;
      if tries {
        ThenOneMore(before, pending, entities, debouncer.log, [], Update(card, cardID, Final));
        assert [] + [Update(card, cardID, Final)] == [Update(card, cardID, Final)];
        debouncer.CallNow(Update(card, cardID, Final));
        if ok {
          return;
        }
        ThenOneMore(before, pending, entities, debouncer.log, [Update(card, cardID, Final)], Fresh);
        assert [Update(card, cardID, Final)] + [Fresh] == [Update(card, cardID, Final), Fresh];
      } else {
        ThenOneMore(before, pending, entities, debouncer.log, [], Fresh);
        assert [] + [Fresh] == [Fresh];
      }
      debouncer.CallNow(Fresh);
    }

    /** A notice on its turn's card: every pending frame goes out first, the final content after them, in
        a card of its own where the update is not possible, and neither the turn nor the marker stays. */
    method SendNotice(prompt: string, ok: bool)
      requires Valid()
      modifies this, debouncer
      ensures Valid() && debouncer.pending == map[]
      ensures var card := CardOf(old(View()), prompt);
              View() == CardCleaned(TurnFinished(CardMarked(old(View()), card), prompt), card)
      ensures FlushedThen(old(debouncer.log), old(debouncer.pending), entities, debouncer.log,
                          if prompt !in old(turns) then [Fresh]
                          else
                            var card, id := old(turns)[prompt], entities[old(turns)[prompt]];
                            if ok then [Update(card, id, Final)] else [Update(card, id, Final), Fresh])
      ensures turns == old(turns) - {prompt} && entities == old(entities)
      ensures finalized == if prompt in old(turns) then old(finalized) - {old(turns)[prompt]} else old(finalized)
    {
      hide FlushedThen;
      var card := "";
      if prompt in turns {
        card := turns[prompt];
      }
      FlushAll();
      MarkFinalized(card);
      CloseCard(card != "", card, EntityOf(card), ok, old(debouncer.log), old(debouncer.pending));
      Finish(prompt);
      CleanupProgress(card);
    }

    /** A picker on its command's card: the frames go out, the turn ends, then the picker takes over, or
        comes as a card of its own where it cannot. */
    method TakeOver(prompt: string, ok: bool)
      requires Valid()
      modifies this`turns, debouncer
      ensures Valid() && View() == TurnFinished(old(View()), prompt) && turns == old(turns) - {prompt}
      ensures prompt in old(turns) ==>
                && debouncer.pending == map[]
                && FlushedThen(old(debouncer.log), old(debouncer.pending), entities, debouncer.log,
                               var card, id := old(turns)[prompt], entities[old(turns)[prompt]];
                               if ok then [Update(card, id, Final)] else [Update(card, id, Final), Fresh])
      ensures prompt !in old(turns) ==>
                && debouncer.View() == old(debouncer.View()) && debouncer.cardIDs == old(debouncer.cardIDs)
                && debouncer.log == old(debouncer.log) + [Fresh]
    {
      hide FlushedThen;
      if prompt in turns {
        var card := turns[prompt];
        FlushAll();
        Finish(prompt);
        CloseCard(true, card, EntityOf(card), ok, old(debouncer.log), old(debouncer.pending));
      } else {
        debouncer.CallNow(Fresh);
        assert turns - {prompt} == turns;
      }
    }
  }

  // ---------------------------------------------------------------- each frame has one fate

  /** The cards of a map that hold frame f. */
  function Holders(m: map<string, nat>, f: nat): set<string> {
    set c | c in m && m[c] == f
  }

  function Times(fs: seq<nat>, f: nat): nat {
    if fs == [] then 0 else Times(fs[..|fs| - 1], f) + if fs[|fs| - 1] == f then 1 else 0
  }

  function PumpBatch(pc: Pc): map<string, nat> {
    if pc.Sending? then pc.batch else map[]
  }

  /** How often frame f is anywhere: pending, in a batch, overwritten, sent. */
  function Total(b: Buffer, inHand: map<string, nat>, f: nat): nat {
    |Holders(b.pending, f)| + |Holders(b.loop.frames, f)| + |Holders(inHand, f)|
    + Times(b.lost, f) + Times(b.sent, f)
  }

  predicate Conserved(s: Cards, f: nat) {
    Total(s.buf, PumpBatch(s.pc), f) == if f < s.buf.issued then 1 else 0
  }

  lemma HoldersRemoved(m: map<string, nat>, c: string, f: nat)
    requires c in m
    ensures |Holders(m, f)| == |Holders(m - {c}, f)| + if m[c] == f then 1 else 0
  {
    if m[c] == f {
      assert Holders(m, f) == Holders(m - {c}, f) + {c};
    } else {
      assert Holders(m, f) == Holders(m - {c}, f);
    }
  }

  lemma HoldersPut(m: map<string, nat>, c: string, v: nat, f: nat)
    ensures |Holders(m[c := v], f)| ==
            |Holders(m, f)| - (if c in m && m[c] == f then 1 else 0) + (if v == f then 1 else 0)
  {
    HoldersRemoved(m[c := v], c, f);
    assert m[c := v] - {c} == m - {c};
    if c in m {
      HoldersRemoved(m, c, f);
    } else {
      assert m - {c} == m;
    }
  }

  lemma TimesSnoc(fs: seq<nat>, x: nat, f: nat)
    ensures Times(fs + [x], f) == Times(fs, f) + if x == f then 1 else 0
  {
    assert (fs + [x])[..|fs|] == fs;
  }

  lemma EnqueueConserves(b: Buffer, batch: map<string, nat>, c: string, f: nat)
    ensures Total(Enqueued(b, c), batch, f) == Total(b, batch, f) + if f == b.issued then 1 else 0
  {
    HoldersPut(b.pending, c, b.issued, f);
    if c in b.pending {
      TimesSnoc(b.lost, b.pending[c], f);
    }
  }

  lemma PumpSendConserves(b: Buffer, batch: map<string, nat>, c: string, f: nat)
    requires c in batch
    ensures Total(b.(sent := b.sent + [batch[c]]), batch - {c}, f) == Total(b, batch, f)
  {
    HoldersRemoved(batch, c, f);
    TimesSnoc(b.sent, batch[c], f);
  }

  lemma LoopSendConserves(b: Buffer, batch: map<string, nat>, c: string, f: nat)
    requires c in b.loop.frames
    ensures Total(LoopSent(b, c), batch, f) == Total(b, batch, f)
  {
    HoldersRemoved(b.loop.frames, c, f);
    TimesSnoc(b.sent, b.loop.frames[c], f);
  }

  lemma NoneHeld(f: nat)
    ensures |Holders(map[], f)| == 0
  {
    assert Holders(map[], f) == {};
  }

  lemma PumpConserves(s: Cards, e: Step, f: nat)
    requires Conserved(s, f)
    ensures Conserved(PumpNext(s, e), f)
  {
    NoneHeld(f);
    if s.pc.Passed? && e.Enqueue? {
      EnqueueConserves(s.buf, map[], s.pc.card, f);
    } else if s.pc.Sending? && e.PumpSend? && e.card in s.pc.batch {
      PumpSendConserves(s.buf, s.pc.batch, e.card, f);
    }
  }

  lemma OthersLeaveFrames(s: Cards, e: Step)
    requires e.Start? || e.Drop? || e.Reclaim? || e.Invalidate? || e.MarkInvalid? || e.Release?
    ensures Next(s, e).buf == s.buf && Next(s, e).pc == s.pc
  {
  }

  lemma LoopSwapConserves(b: Buffer, batch: map<string, nat>, at: nat, f: nat)
    requires b.loop.frames == map[]
    ensures Total(LoopSwapped(b, at), batch, f) == Total(b, batch, f)
  {
    NoneHeld(f);
  }

  lemma StepConserves(s: Cards, e: Step, f: nat)
    requires Conserved(s, f)
    ensures Conserved(Next(s, e), f)
  {
    if e.Start? || e.Drop? || e.Reclaim? || e.Invalidate? || e.MarkInvalid? || e.Release? {
      OthersLeaveFrames(s, e);
    } else if e.LoopSwap? {
      if s.buf.loop.frames == map[] {
        LoopSwapConserves(s.buf, PumpBatch(s.pc), s.now, f);
      }
    } else if e.LoopSend? {
      if e.card in s.buf.loop.frames {
        LoopSendConserves(s.buf, PumpBatch(s.pc), e.card, f);
      }
    } else {
      PumpConserves(s, e, f);
      assert Next(s, e) == PumpNext(s, e).(now := s.now + 1);
    }
  }

  /** Main result: in every run every frame is in exactly one place: still pending, in one goroutine's
      batch, overwritten before any swap, or sent; so none is sent twice. */
  lemma {:induction false} EachFrameHasOneFate(steps: seq<Step>, f: nat)
    ensures Conserved(After(steps), f)
    ensures Times(After(steps).buf.sent, f) <= 1
  {
    NoneHeld(f);
    if steps != [] {
      EachFrameHasOneFate(steps[..|steps| - 1], f);
      StepConserves(After(steps[..|steps| - 1]), steps[|steps| - 1], f);
    }
  }

  // ---------------------------------------------------------------- what closes a card

  /** Every open turn's card was sent for that turn's prompt. */
  predicate TurnsOwned(t: Table) {
    "" !in t.owner && forall p :: p in t.turns ==> t.turns[p] != "" && t.turns[p] in t.owner && t.owner[t.turns[p]] == p
  }

  /** The card the pump looked up belongs to the prompt it is handling. */
  predicate PcOwned(s: Cards) {
    match s.pc
    case Begun(k, p, c) => k != Patch && (c != "" ==> c in s.tab.owner && s.tab.owner[c] == p)
    case Sending(k, p, c, _, at) => k != Patch && (c != "" ==> c in s.tab.owner && s.tab.owner[c] == p)
    case Marked(k, p, c, at) => k != Patch && (c != "" ==> c in s.tab.owner && s.tab.owner[c] == p)
    case Delivered(k, p, c) => k != Patch && c != "" ==> c in s.tab.owner && s.tab.owner[c] == p
    case Checked(c) => c in s.tab.owner
    case Passed(c) => c in s.tab.owner
    case _ => true
  }

  predicate Owned(s: Cards) {
    TurnsOwned(s.tab) && PcOwned(s) && s.buf.loop.at < s.now
  }

  lemma SwapKeepsOwned(s: Cards)
    requires Owned(s) && s.pc.Begun?
    ensures Owned(SwapNext(s).(now := s.now + 1))
  {
  }

  lemma PumpKeepsOwned(s: Cards, e: Step)
    requires Owned(s)
    ensures Owned(PumpNext(s, e).(now := s.now + 1))
  {
    if s.pc.Begun? && e.PumpSwap? {
      SwapKeepsOwned(s);
    }
  }

  lemma StepKeepsOwned(s: Cards, e: Step)
    requires Owned(s)
    ensures Owned(Next(s, e))
  {
    match e
    case LoopSend(_, _) =>
    case LoopSwap =>
    case Start(_, _) =>
    case Drop(_) =>
    case Reclaim(_) =>
    case Invalidate(_, _) =>
    case MarkInvalid(_) =>
    case Release(_) =>
    case _ => PumpKeepsOwned(s, e);
  }

  /** The pump has the open turn of a closed card in hand and is about to end it. */
  predicate Ending(pc: Pc, prompt: string, card: string) {
    && (pc.Sending? || (pc.Marked? && pc.kind != TakeOver) || (pc.Delivered? && pc.kind != Patch))
    && pc.card == card && pc.prompt == prompt
  }

  /** What is true of a card from the moment the pump swaps its frames out to close it. */
  predicate Shut(s: Cards, c: string) {
    c in s.trail.closed ==>
      && c != "" && c in s.tab.owner
      && c !in s.buf.pending
      && (c in s.buf.loop.frames ==> s.buf.loop.at < s.trail.closed[c])
      && (CardOf(s.tab, s.tab.owner[c]) == c ==> Ending(s.pc, s.tab.owner[c], c))
      && (c in PumpBatch(s.pc) ==> s.pc.card == c && s.pc.at == s.trail.closed[c])
      && !((s.pc.Begun? || s.pc.Checked? || s.pc.Passed?) && s.pc.card == c)
      && s.trail.closed[c] < s.now
  }

  lemma BeginKeepsShut(s: Cards, e: Step, c: string)
    requires Owned(s) && Shut(s, c) && s.pc.Idle? && (e.Terminal? || e.Frame? || e.PatchCard?)
    ensures Shut(BeginNext(s, e), c)
  {
  }

  lemma SwapKeepsShut(s: Cards, c: string)
    requires Owned(s) && Shut(s, c) && s.pc.Begun?
    ensures Shut(SwapNext(s).(now := s.now + 1), c)
  {
  }

  lemma SendKeepsShut(s: Cards, d: string, ok: bool, c: string)
    requires Shut(s, c)
    ensures s.pc.Sending? && d in s.pc.batch ==> Shut(SendNext(s, d, ok).(now := s.now + 1), c)
    ensures d in s.buf.loop.frames ==> Shut(LoopSendNext(s, d, ok).(now := s.now + 1), c)
  {
  }

  lemma CloseKeepsShut(s: Cards, ok: bool, c: string)
    requires Owned(s) && Shut(s, c)
    ensures s.pc.Sending? && s.pc.batch == map[] ==> Shut(MarkNext(s).(now := s.now + 1), c)
    ensures s.pc.Marked? ==> Shut(DeliverNext(s, ok).(now := s.now + 1), c)
    ensures s.pc.Delivered? ==> Shut(FinishNext(s).(now := s.now + 1), c)
    ensures s.pc.Finished? ==> Shut(CleanupNext(s).(now := s.now + 1), c)
  {
  }

  lemma FrameKeepsShut(s: Cards, c: string)
    requires Owned(s) && Shut(s, c)
    ensures s.pc.Checked? ==> Shut(CheckNext(s).(now := s.now + 1), c)
    ensures s.pc.Passed? ==> Shut(EnqueueNext(s).(now := s.now + 1), c)
  {
  }

  lemma PumpKeepsShut(s: Cards, e: Step, c: string)
    requires Owned(s) && Shut(s, c)
    ensures Shut(PumpNext(s, e).(now := s.now + 1), c)
  {
    match s.pc
    case Idle =>
      if e.Terminal? || e.Frame? || e.PatchCard? {
        BeginKeepsShut(s, e, c);
      }
    case Begun(_, _, _) => SwapKeepsShut(s, c);
    case Sending(_, _, _, _, _) =>
      if e.PumpSend? {
        SendKeepsShut(s, e.card, e.ok, c);
      } else {
        CloseKeepsShut(s, false, c);
      }
    case Marked(_, _, _, _) =>
      if e.Deliver? {
        CloseKeepsShut(s, e.ok, c);
      }
    case Delivered(_, _, _) => CloseKeepsShut(s, false, c);
    case Finished(_) => CloseKeepsShut(s, false, c);
    case Checked(_) => FrameKeepsShut(s, c);
    case Passed(_) => FrameKeepsShut(s, c);
  }

  lemma TableKeepsShut(s: Cards, e: Step, c: string)
    requires Owned(s) && Shut(s, c)
    requires e.Start? || e.Drop? || e.Reclaim? || e.Invalidate? || e.MarkInvalid? || e.Release?
    ensures Shut(Next(s, e), c)
  {
  }

  lemma StepKeepsShut(s: Cards, e: Step, c: string)
    requires Owned(s) && Shut(s, c)
    ensures Shut(Next(s, e), c)
  {
    hide PumpNext, StartNext, ReclaimerNext, LoopSendNext, Owned;
    match e
    case LoopSend(d, ok) => SendKeepsShut(s, d, ok, c);
    case LoopSwap =>
    case Start(_, _) => TableKeepsShut(s, e, c);
    case Drop(_) => TableKeepsShut(s, e, c);
    case Reclaim(_) => TableKeepsShut(s, e, c);
    case Invalidate(_, _) => TableKeepsShut(s, e, c);
    case MarkInvalid(_) => TableKeepsShut(s, e, c);
    case Release(_) => TableKeepsShut(s, e, c);
    case _ => PumpKeepsShut(s, e, c);
  }

  lemma {:induction false} AlwaysShut(steps: seq<Step>, c: string)
    ensures Owned(After(steps)) && Shut(After(steps), c)
  {
    if steps != [] {
      AlwaysShut(steps[..|steps| - 1], c);
      StepKeepsOwned(After(steps[..|steps| - 1]), steps[|steps| - 1]);
      StepKeepsShut(After(steps[..|steps| - 1]), steps[|steps| - 1], c);
    }
  }

  /** Main result: once the pump has swapped out the frames of a card it is closing, the only frames
      that can still reach that card are those of the pump's own flush, sent before the card is
      updated, and those of a batch the ticker had swapped out earlier; none is enqueued again. */
  lemma LateFramesAreOld(steps: seq<Step>, c: string)
    requires c in After(steps).trail.closed
    ensures var s := After(steps);
            && (c in s.buf.loop.frames ==> s.buf.loop.at < s.trail.closed[c])
            && (c in PumpBatch(s.pc) ==> s.pc.card == c && s.pc.at == s.trail.closed[c])
            && c !in s.buf.pending
            && !((s.pc.Checked? || s.pc.Passed?) && s.pc.card == c)
  {
    AlwaysShut(steps, c);
  }

  // ---------------------------------------------------------------- final cards stay final

  /** Nothing sent from now on can hold a frame for this closed card. */
  predicate Quiet(s: Cards, c: string) {
    c in s.trail.closed && c !in s.buf.loop.frames && c !in PumpBatch(s.pc)
  }

  predicate Touches(e: Step, c: string) {
    (e.Invalidate? && e.card == c) || (e.PatchCard? && e.card == c)
  }

  predicate Shows(s: Cards, c: string, what: Shown) {
    c in s.trail.shown && s.trail.shown[c] == what
  }

  predicate ShowsFinal(s: Cards, c: string) {
    Shows(s, c, Final)
  }

  lemma BeginStaysFinal(s: Cards, e: Step, c: string)
    requires s.pc.Idle? && (e.Terminal? || e.Frame? || e.PatchCard?)
    requires Quiet(s, c) && ShowsFinal(s, c)
    ensures Quiet(BeginNext(s, e), c) && ShowsFinal(BeginNext(s, e), c)
  {
  }

  lemma FlushStaysFinal(s: Cards, card: string, ok: bool, c: string)
    requires c !in s.buf.pending && Quiet(s, c) && ShowsFinal(s, c)
    ensures s.pc.Begun? ==> Quiet(SwapNext(s), c) && ShowsFinal(SwapNext(s), c)
    ensures s.pc.Sending? && card in s.pc.batch ==>
              Quiet(SendNext(s, card, ok), c) && ShowsFinal(SendNext(s, card, ok), c)
  {
  }

  lemma CloseStaysFinal(s: Cards, ok: bool, c: string)
    requires Quiet(s, c) && ShowsFinal(s, c)
    ensures s.pc.Sending? ==> Quiet(MarkNext(s), c) && ShowsFinal(MarkNext(s), c)
    ensures s.pc.Marked? ==> Quiet(DeliverNext(s, ok), c) && ShowsFinal(DeliverNext(s, ok), c)
    ensures s.pc.Delivered? ==> Quiet(FinishNext(s), c) && ShowsFinal(FinishNext(s), c)
    ensures s.pc.Finished? ==> Quiet(CleanupNext(s), c) && ShowsFinal(CleanupNext(s), c)
  {
  }

  lemma PumpStaysFinal(s: Cards, e: Step, c: string)
    requires c !in s.buf.pending && Quiet(s, c) && ShowsFinal(s, c)
    ensures Quiet(PumpNext(s, e), c) && ShowsFinal(PumpNext(s, e), c)
  {
    match s.pc
    case Idle =>
      if e.Terminal? || e.Frame? || e.PatchCard? {
        BeginStaysFinal(s, e, c);
      }
    case Begun(_, _, _) => FlushStaysFinal(s, "", false, c);
    case Sending(_, _, _, _, _) =>
      if e.PumpSend? {
        FlushStaysFinal(s, e.card, e.ok, c);
      } else {
        CloseStaysFinal(s, false, c);
      }
    case Marked(_, _, _, _) =>
      if e.Deliver? {
        CloseStaysFinal(s, e.ok, c);
      }
    case Delivered(_, _, _) => CloseStaysFinal(s, false, c);
    case Finished(_) => CloseStaysFinal(s, false, c);
    case _ =>
  }

  lemma LoopStaysFinal(s: Cards, card: string, ok: bool, c: string)
    requires c !in s.buf.pending && Quiet(s, c) && ShowsFinal(s, c)
    ensures Quiet(LoopSwapNext(s), c) && ShowsFinal(LoopSwapNext(s), c)
    ensures card in s.buf.loop.frames ==>
              Quiet(LoopSendNext(s, card, ok), c) && ShowsFinal(LoopSendNext(s, card, ok), c)
  {
  }

  lemma StaysFinal(s: Cards, e: Step, c: string)
    requires c !in s.buf.pending && Quiet(s, c) && ShowsFinal(s, c) && !Touches(e, c)
    ensures Quiet(Next(s, e), c) && ShowsFinal(Next(s, e), c)
  {
    if e.LoopSend? {
      LoopStaysFinal(s, e.card, e.ok, c);
    } else if e.LoopSwap? {
      LoopStaysFinal(s, "", false, c);
    } else if e.Start? || e.Drop? || e.Reclaim? || e.Invalidate? || e.MarkInvalid? || e.Release? {
      OthersLeaveFrames(s, e);
    } else {
      PumpStaysFinal(s, e, c);
    }
  }

  /** Nobody rewrites this card on purpose. */
  predicate Untouched(steps: seq<Step>, c: string) {
    forall i :: 0 <= i < |steps| ==> !Touches(steps[i], c)
  }

  lemma {:induction false} SettledStays(s: Cards, c: string, steps: seq<Step>)
    requires Owned(s) && Shut(s, c) && Quiet(s, c) && ShowsFinal(s, c) && Untouched(steps, c)
    ensures var t := Fold(Next, s, steps); Owned(t) && Shut(t, c) && Quiet(t, c) && ShowsFinal(t, c)
  {
    if steps != [] {
      var n := |steps| - 1;
      SettledStays(s, c, steps[..n]);
      var t := Fold(Next, s, steps[..n]);
      StepKeepsOwned(t, steps[n]);
      StepKeepsShut(t, steps[n], c);
      StaysFinal(t, steps[n], c);
    }
  }

  /** Main result: a card closed while the ticker held no frame of it, and showing its final content,
      shows it for ever, short of a reclaim or a patch of that very card. */
  lemma FinalForever(past: seq<Step>, c: string, steps: seq<Step>)
    requires Quiet(After(past), c) && ShowsFinal(After(past), c)
    requires Untouched(steps, c)
    ensures ShowsFinal(After(past + steps), c)
  {
    AlwaysShut(past, c);
    SettledStays(After(past), c, steps);
    FoldConcat(Next, (_, _) => true, Begin(), past, steps);
  }

  // ---------------------------------------------------------------- the finalized marker

  predicate Marking(pc: Pc, c: string) {
    ((pc.Marked? && pc.kind != TakeOver) || pc.Delivered? || pc.Finished?) && pc.card == c
  }

  /** A marker is set only while the pump is between marking and cleaning up, or a reclaim is. */
  predicate MarkerPassing(s: Cards, c: string) {
    c in s.tab.finalized ==> c != "" && (At(s.tab, c, Closing) || Marking(s.pc, c))
  }

  /** A card being reclaimed has lost its turn. */
  predicate DoomedIsGone(t: Table, c: string) {
    c in t.doomed ==> c in t.owner && c != "" && CardOf(t, t.owner[c]) != c
  }

  lemma PumpKeepsMarkers(s: Cards, e: Step, c: string)
    requires DoomedIsGone(s.tab, c) && MarkerPassing(s, c)
    ensures DoomedIsGone(PumpNext(s, e).tab, c) && MarkerPassing(PumpNext(s, e), c)
  {
  }

  lemma StepKeepsMarkers(s: Cards, e: Step, c: string)
    requires TurnsOwned(s.tab) && DoomedIsGone(s.tab, c) && MarkerPassing(s, c)
    ensures DoomedIsGone(Next(s, e).tab, c) && MarkerPassing(Next(s, e), c)
  {
    match e
    case LoopSend(_, _) =>
    case LoopSwap =>
    case Start(_, _) =>
    case Drop(_) =>
    case Reclaim(_) =>
    case Invalidate(_, _) =>
    case MarkInvalid(_) =>
    case Release(_) =>
    case _ => PumpKeepsMarkers(s, e, c);
  }

  /** In every run, when a progress frame is checked the pump has no marker of its own left: the marker
      can stop it only while a reclaim of that card is closing. What stops late frames is the missing
      turn. */
  lemma {:induction false} MarkerNeverStopsAFrame(steps: seq<Step>, c: string)
    ensures DoomedIsGone(After(steps).tab, c) && MarkerPassing(After(steps), c)
    ensures var s := After(steps);
            s.pc == Checked(c) && !At(s.tab, c, Closing) ==> Next(s, Check).pc == Passed(c)
  {
    if steps != [] {
      MarkerNeverStopsAFrame(steps[..|steps| - 1], c);
      AlwaysShut(steps[..|steps| - 1], c);
      StepKeepsMarkers(After(steps[..|steps| - 1]), steps[|steps| - 1], c);
    }
  }

  // ---------------------------------------------------------------- what the guards do not cover

  lemma Do(steps: seq<Step>, e: Step)
    ensures After(steps + [e]) == Next(After(steps), e)
  {
    assert (steps + [e])[..|steps|] == steps;
  }

  /** A frame of the open turn is enqueued: the common start of the runs below. */
  lemma OneFramePending(p: string, c: string) returns (steps: seq<Step>)
    requires c != ""
    ensures After(steps) == Cards(Buffer(map[c := 0], Batch(map[], 0), [], [], 1),
                                  Table(map[p := c], {}, map[c := p], map[]), Idle, Trail(map[], map[]), 5)
  {
    steps := [] + [Start(p, c)];
    Do([], Start(p, c));
    Do(steps, Frame(p));
    steps := steps + [Frame(p)];
    Do(steps, Check);
    steps := steps + [Check];
    Do(steps, Enqueue);
    steps := steps + [Enqueue];
  }

  /** The exception is real: a batch the ticker swapped out first lands on the final card. */
  lemma OldBatchOverwritesFinal(p: string, c: string) returns (steps: seq<Step>)
    requires c != ""
    ensures ShowsFinal(After(steps), c) && c in After(steps).trail.closed
    ensures Shows(After(steps + [LoopSend(c, true)]), c, Progress(0))
  {
    steps := OneFramePending(p, c);
    Do(steps, LoopSwap);
    steps := steps + [LoopSwap];
    Do(steps, Terminal(Notice, p));
    steps := steps + [Terminal(Notice, p)];
    Do(steps, PumpSwap);
    steps := steps + [PumpSwap];
    Do(steps, Mark);
    steps := steps + [Mark];
    Do(steps, Deliver(true));
    steps := steps + [Deliver(true)];
    Do(steps, LoopSend(c, true));
  }

  /** A patch neither flushes nor closes: a frame pending when it lands overwrites it. */
  lemma PatchIsOverwritten(p: string, c: string) returns (steps: seq<Step>)
    requires c != ""
    ensures ShowsFinal(After(steps), c) && p !in After(steps).tab.turns
    ensures Shows(After((steps + [LoopSwap]) + [LoopSend(c, true)]), c, Progress(0))
  {
    steps := OneFramePending(p, c);
    Do(steps, PatchCard(p, c, true, false));
    steps := steps + [PatchCard(p, c, true, false)];
    Do(steps, Finish);
    steps := steps + [Finish];
    Do(steps, Cleanup);
    steps := steps + [Cleanup];
    Do(steps, LoopSwap);
    Do(steps + [LoopSwap], LoopSend(c, true));
  }

  /** Nor does a reclaim: a frame the pump had let through before it is shown after it. */
  lemma ReclaimIsOverwritten(p: string, c: string) returns (steps: seq<Step>)
    requires c != ""
    ensures Shows(After(steps), c, Invalid)
    ensures p !in After(steps).tab.turns
    ensures Shows(After((steps + [LoopSwap]) + [LoopSend(c, true)]), c, Progress(0))
  {
    steps := OneFramePending(p, c);
    Do(steps, Reclaim({p}));
    steps := steps + [Reclaim({p})];
    Do(steps, Invalidate(c, true));
    steps := steps + [Invalidate(c, true)];
    Do(steps, LoopSwap);
    Do(steps + [LoopSwap], LoopSend(c, true));
  }
}
