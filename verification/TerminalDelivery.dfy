/**
The frontend side of a final control: the IPC handler queues it
(internal/feishufront/ipcserver/ipcserver_control.go), one pump takes controls off the queue in order
(cmd/feishu-front/main.go), and the dispatcher drops copies, renders the first and releases the turn
(internal/feishufront/dispatcher_control.go). What the chat service answers is a parameter of each
dispatch; times are milliseconds.
*/
module TerminalDelivery {
  import opened Options
  import opened ReplayGuard
  import opened Runs

  const CONTROL_BUF := 1024
  const TERMINAL_TTL := 600000

  datatype Kind = Result(hasText: bool) | Notice | Patch(card: string)

  datatype Control = Terminal(prompt: string, kind: Kind) | TakeOver(prompt: string) | Other(prompt: string)

  datatype UpdateReply = Updated | Gone | UpdateFailed
  datatype SendReply = Sent | ContentRejected | SendFailed

  /** What rendering and the chat service do during one dispatch. */
  datatype Bot = Bot(renders: bool, update: UpdateReply, send: SendReply, text: bool)

  datatype Way = InPlace(card: string) | FreshCard | PlainText
  datatype Call = Call(way: Way, ok: bool)

  // ---------------------------------------------------------------- the queue

  /** A POST as the handler finds it: `named` when the path holds a backend id, `body` what its JSON
      decodes to, `valid` when that passes Validate. */
  datatype Request = Request(authOK: bool, named: bool, registered: bool, tokenOk: bool,
                             body: Option<Control>, valid: bool, pong: bool)

  /** The handler's answer when `waiting` controls are queued. */
  function Status(r: Request, waiting: nat): nat {
    if !r.authOK then 401
    else if !r.named then 400
    else if !r.registered then 503
    else if !r.tokenOk then 403
    else if r.body.None? || !r.valid then 400
    else if r.pong || waiting < CONTROL_BUF then 202
    else 503
  }

  /** The request makes the queue longer. */
  predicate Enqueues(r: Request, waiting: nat) {
    Status(r, waiting) == 202 && !r.pong
  }

  function Queued(queue: seq<Control>, r: Request): seq<Control> {
    if Enqueues(r, |queue|) then queue + [r.body.value] else queue
  }

  class ControlIngress {
    var queue: seq<Control>
    var missedPongs: nat

    constructor ()
      ensures queue == [] && missedPongs == 0
    {
      queue, missedPongs := [], 0;
    }

    method ReceiveControl(c: Control) returns (ok: bool)
      modifies this`queue
      ensures ok <==> |old(queue)| < 1024
      ensures queue == if ok then old(queue) + [c] else old(queue)
    {
      ok := |queue| < CONTROL_BUF;
      if ok {
        queue := queue + [c];
      }
    }

    /** 202 is answered for a copy that was queued, or a pong, and for nothing else; a 4xx never depends
        on how full the queue is. */
    method HandleControl(r: Request) returns (status: nat)
      modifies this
      ensures status == Status(r, |old(queue)|) && queue == Queued(old(queue), r)
      ensures status == 202 && !r.pong ==> r.body.Some? && queue == old(queue) + [r.body.value]
      ensures status != 202 || r.pong ==> queue == old(queue)
      ensures status == 202 <==>
              && r.authOK && r.named && r.registered && r.tokenOk && r.body.Some? && r.valid
              && (r.pong || |old(queue)| < 1024)
      ensures 400 <= status < 500
              <==> !r.authOK || !r.named || (r.registered && !(r.tokenOk && r.body.Some? && r.valid))
      ensures status in {202, 400, 401, 403, 503} && (status == 401 <==> !r.authOK)
      ensures status == 403 <==> r.authOK && r.named && r.registered && !r.tokenOk
      ensures missedPongs == if status == 202 && r.pong then 0 else old(missedPongs)
    {
      if !r.authOK {
        return 401;
      }
      if !r.named {
        return 400;
      }
      if !r.registered {
        return 503;
      }
      if !r.tokenOk {
        return 403;
      }
      if r.body.None? {
        return 400;
      }
      if !r.valid {
        return 400;
      }
      if r.pong {
        missedPongs := 0;
        return 202;
      }
      var ok := ReceiveControl(r.body.value);
      if !ok {
        return 503;
      }
      return 202;
    }
  }

  // ---------------------------------------------------------------- one terminal

  /** The calls a terminal makes, in order; `card` is its turn's progress card, or "". */
  function Calls(k: Kind, card: string, bot: Bot): seq<Call> {
    if !bot.renders then []
    else match k
      case Result(hasText) =>
        [Call(FreshCard, bot.send.Sent?)]
        + if bot.send.ContentRejected? && hasText then [Call(PlainText, bot.text)] else []
      case Notice =>
        if card != "" && bot.update.Updated? then [Call(InPlace(card), true)]
        else (if card != "" then [Call(InPlace(card), false)] else []) + [Call(FreshCard, bot.send.Sent?)]
      case Patch(target) =>
        [Call(InPlace(target), bot.update.Updated?)]
        + if bot.update.Gone? then [Call(FreshCard, bot.send.Sent?)] else []
  }

  function Successes(calls: seq<Call>): nat {
    if calls == [] then 0
    else Successes(calls[..|calls| - 1]) + if calls[|calls| - 1].ok then 1 else 0
  }

  /** Whether handling the terminal lets go of the turn. */
  predicate Releases(k: Kind, calls: seq<Call>) {
    k.Patch? ==> Successes(calls) > 0
  }

  lemma SuccessesOfOne(c: Call)
    ensures Successes([c]) == if c.ok then 1 else 0
  {
    assert Successes([c][..0]) == 0;
  }

  lemma SuccessesOfTwo(c: Call, d: Call)
    ensures Successes([c] + [d]) == (if c.ok then 1 else 0) + (if d.ok then 1 else 0)
  {
    assert ([c] + [d])[..1] == [c];
    SuccessesOfOne(c);
  }

  /** Whatever fails and falls back, the user sees the terminal at most once, and every call but the
      last one failed. */
  lemma ShownAtMostOnce(k: Kind, card: string, bot: Bot)
    ensures var calls := Calls(k, card, bot);
            && |calls| <= 2
            && Successes(calls) <= 1
            && (Successes(calls) == 1 <==> calls != [] && calls[|calls| - 1].ok)
  {
    var calls := Calls(k, card, bot);
    if |calls| == 1 {
      SuccessesOfOne(calls[0]);
      assert calls == [calls[0]];
    } else if |calls| == 2 {
      SuccessesOfTwo(calls[0], calls[1]);
      assert calls == [calls[0]] + [calls[1]];
    }
  }

  /** The chat service takes the terminal: a result as a card, or as text where its card is rejected for its
      content; a notice on its turn's card or as a card; a patch on its target or, that being gone, as a card. */
  predicate Takes(k: Kind, card: string, bot: Bot) {
    match k
    case Result(hasText) => bot.send.Sent? || (bot.send.ContentRejected? && hasText && bot.text)
    case Notice => (card != "" && bot.update.Updated?) || bot.send.Sent?
    case Patch(_) => bot.update.Updated? || (bot.update.Gone? && bot.send.Sent?)
  }

  lemma LastCallDecides(k: Kind, card: string, bot: Bot)
    ensures var calls := Calls(k, card, bot);
            && (calls != [] <==> bot.renders)
            && (bot.renders ==>
                  && (calls[|calls| - 1].ok <==> Takes(k, card, bot))
                  && calls[0].way == if k.Patch? then InPlace(k.card)
                                     else if k.Notice? && card != "" then InPlace(card) else FreshCard)
  {
  }

  /** Main result: a terminal is shown, once, if and only if it renders and the chat service takes it; and what a
      notice or a patch tries first is the card it is meant for. */
  lemma ShownExactlyWhenTaken(k: Kind, card: string, bot: Bot)
    ensures var calls := Calls(k, card, bot);
            && Successes(calls) == (if bot.renders && Takes(k, card, bot) then 1 else 0)
            && (calls != [] <==> bot.renders)
            && (bot.renders ==>
                  calls[0].way == if k.Patch? then InPlace(k.card)
                                  else if k.Notice? && card != "" then InPlace(card) else FreshCard)
  {
    LastCallDecides(k, card, bot);
    ShownAtMostOnce(k, card, bot);
    hide Calls, Successes, Takes;
  }

  // ---------------------------------------------------------------- the dispatcher

  /** One dispatch: with `card` the turn's progress card, or "", and `bot` what rendering and the chat service did. */
  datatype Entry = Entry(control: Control, at: int, card: string, bot: Bot, rendered: bool, calls: seq<Call>)

  /** The pump's state: the replay guard, prompt -> progress card of every open turn, what was done. */
  datatype Pump = Pump(guard: Guard, turns: map<string, string>, log: seq<Entry>)

  function CardOf(turns: map<string, string>, prompt: string): string {
    if prompt in turns then turns[prompt] else ""
  }

  /** What the guard answers, and what it remembers. */
  predicate Fresh(g: Guard, prompt: string, now: int) {
    prompt == "" || Accepts(g, prompt, now)
  }

  function Remembered(g: Guard, prompt: string, now: int): Guard {
    if prompt == "" || !Accepts(g, prompt, now) then g else g.(seen := g.seen[prompt := now])
  }

  /** The record of dispatching `c`. */
  function EntryOf(p: Pump, c: Control, now: int, bot: Bot): Entry {
    var rendered := c.Terminal? && Fresh(p.guard, c.prompt, now);
    var card := CardOf(p.turns, c.prompt);
    Entry(c, now, card, bot, rendered, if rendered then Calls(c.kind, card, bot) else [])
  }

  function GuardAfter(g: Guard, c: Control, now: int): Guard {
    if c.Terminal? then Remembered(g, c.prompt, now) else g
  }

  function TurnsAfter(turns: map<string, string>, e: Entry): map<string, string> {
    match e.control
    case Terminal(prompt, kind) => if e.rendered && Releases(kind, e.calls) then turns - {prompt} else turns
    case TakeOver(prompt) => if prompt == "" then turns else turns - {prompt}
    case Other(_) => turns
  }

  function Dispatched(p: Pump, c: Control, now: int, bot: Bot): Pump {
    var e := EntryOf(p, c, now, bot);
    Pump(GuardAfter(p.guard, c, now), TurnsAfter(p.turns, e), p.log + [e])
  }

  /** Without a cap, the guard's Add is a function of what it has seen. */
  lemma UncappedAdd(g: Guard, id: string, now: int, accepted: bool, g': Guard)
    requires g.maxEntries <= 0 && AddStep(g, id, now, accepted, g')
    ensures accepted == Accepts(g, id, now) && g' == Remembered(g, id, now)
  {
  }

  /** What the dispatch of a control does, by what the guard answered. */
  lemma DispatchedIs(p: Pump, c: Control, now: int, bot: Bot)
    ensures Dispatched(p, c, now, bot) ==
            match c
            case Terminal(prompt, kind) =>
              var card := if prompt in p.turns then p.turns[prompt] else "";
              if prompt != "" && !Accepts(p.guard, prompt, now)
              then p.(log := p.log + [Entry(c, now, card, bot, false, [])])
              else
                var calls := Calls(kind, card, bot);
                Pump(if prompt == "" then p.guard else p.guard.(seen := p.guard.seen[prompt := now]),
                     if Releases(kind, calls) then p.turns - {prompt} else p.turns,
                     p.log + [Entry(c, now, card, bot, true, calls)])
            case TakeOver(prompt) =>
              Pump(p.guard, if prompt == "" then p.turns else p.turns - {prompt},
                   p.log + [Entry(c, now, if prompt in p.turns then p.turns[prompt] else "", bot, false, [])])
            case Other(prompt) =>
              p.(log := p.log + [Entry(c, now, if prompt in p.turns then p.turns[prompt] else "", bot, false, [])])
  {
  }

  class Dispatcher {
    const terminals: DedupSet
    var turns: map<string, string>
    ghost var log: seq<Entry>

    ghost function View(): Pump
      reads this, terminals
    {
      Pump(terminals.View(), turns, log)
    }

    constructor ()
      ensures View() == Pump(Guard(map[], TERMINAL_TTL, 0), map[], []) && fresh(terminals)
    {
      terminals := new DedupSet(TERMINAL_TTL, 0);
      turns, log := map[], [];
    }

    method Finish(prompt: string)
      modifies this`turns
      ensures turns == old(turns) - {prompt}
    {
      turns := turns - {prompt};
    }

    method SendTerminalCard(prompt: string, card: string, bot: Bot) returns (calls: seq<Call>)
      modifies this`turns
      ensures turns == old(turns) - {prompt}
      ensures calls == if card != "" && bot.update.Updated? then [Call(InPlace(card), true)]
                       else (if card != "" then [Call(InPlace(card), false)] else [])
                            + [Call(FreshCard, bot.send.Sent?)]
    {
      calls := [];
      if card != "" {
        calls := calls + [Call(InPlace(card), bot.update.Updated?)];
        if bot.update.Updated? {
          Finish(prompt);
          return;
        }
      }
      calls := calls + [Call(FreshCard, bot.send.Sent?)];
      Finish(prompt);
    }

    method SendResult(prompt: string, hasText: bool, bot: Bot) returns (calls: seq<Call>)
      modifies this`turns
      ensures turns == old(turns) - {prompt}
      ensures calls == Calls(Result(hasText), CardOf(old(turns), prompt), bot)
      ensures calls == [] <==> !bot.renders
      ensures bot.renders ==>
                && calls[0] == Call(FreshCard, bot.send.Sent?)
                && (|calls| == 2 <==> bot.send.ContentRejected? && hasText)
                && (|calls| == 2 ==> calls[1] == Call(PlainText, bot.text))
                && |calls| <= 2
    {
      if !bot.renders {
        Finish(prompt);
        return [];
      }
      calls := [Call(FreshCard, bot.send.Sent?)];
      if !bot.send.Sent? && bot.send.ContentRejected? && hasText {
        calls := calls + [Call(PlainText, bot.text)];
      }
      Finish(prompt);
    }

    method SendNoticeControl(prompt: string, kind: Kind, bot: Bot) returns (calls: seq<Call>)
      requires !kind.Result?
      modifies this`turns
      ensures calls == Calls(kind, CardOf(old(turns), prompt), bot)
      ensures turns == if Releases(kind, calls) then old(turns) - {prompt} else old(turns)
      ensures calls == [] <==> !bot.renders
      ensures bot.renders && kind.Patch? ==>
                && calls == [Call(InPlace(kind.card), bot.update.Updated?)]
                            + (if bot.update.Gone? then [Call(FreshCard, bot.send.Sent?)] else [])
                && (prompt in turns <==>
                    prompt in old(turns) && !bot.update.Updated? && !(bot.update.Gone? && bot.send.Sent?))
      ensures bot.renders && kind.Notice? && prompt in old(turns) && old(turns)[prompt] != "" ==>
                calls == [Call(InPlace(old(turns)[prompt]), bot.update.Updated?)]
                         + (if bot.update.Updated? then [] else [Call(FreshCard, bot.send.Sent?)])
      ensures bot.renders && kind.Notice? && (prompt !in old(turns) || old(turns)[prompt] == "") ==>
                calls == [Call(FreshCard, bot.send.Sent?)]
      ensures kind.Notice? ==> turns == old(turns) - {prompt}
    {
      if kind.Patch? {
        if !bot.renders {
          return [];
        }
        var ok := bot.update.Updated?;
        calls := [Call(InPlace(kind.card), ok)];
        SuccessesOfOne(calls[0]);
        if !ok && bot.update.Gone? {
          SuccessesOfTwo(calls[0], Call(FreshCard, bot.send.Sent?));
          ok := bot.send.Sent?;
          calls := calls + [Call(FreshCard, ok)];
        }
        if ok {
          Finish(prompt);
        }
        return;
      }
      var card := "";
      if prompt in turns {
        card := turns[prompt];
      }
      if !bot.renders {
        Finish(prompt);
        return [];
      }
      calls := SendTerminalCard(prompt, card, bot);
    }

    /** Keeps the record of a dispatch. */
    ghost method Record(c: Control, now: int, card: string, bot: Bot, rendered: bool, calls: seq<Call>)
      modifies this`log
      ensures log == old(log) + [Entry(c, now, card, bot, rendered, calls)]
    {
      log := log + [Entry(c, now, card, bot, rendered, calls)];
    }

    method DispatchControl(c: Control, now: int, bot: Bot)
      requires terminals.maxEntries <= 0
      modifies this, terminals`seen
      ensures View() == Dispatched(old(View()), c, now, bot)
      ensures !c.Terminal? ==>
                && turns == (if c.TakeOver? && c.prompt != "" then old(turns) - {c.prompt} else old(turns))
                && terminals.View() == old(terminals.View())
      ensures c.Terminal? && c.prompt in old(terminals.seen) && now - old(terminals.seen)[c.prompt] <= terminals.ttl
              && c.prompt != "" ==>
                terminals.View() == old(terminals.View()) && turns == old(turns)
    {
      ghost var card := if c.prompt in turns then turns[c.prompt] else "";
      DispatchedIs(View(), c, now, bot);
      hide Calls, Successes, AddStep, MakesRoom, Dispatched, Accepts;
      match c
      case Terminal(prompt, kind) =>
        if prompt != "" {
          ghost var g := terminals.View();
          var isNew := terminals.Add(prompt, now);
          UncappedAdd(g, prompt, now, isNew, terminals.View());
          if !isNew {
            Record(c, now, card, bot, false, []);
            return;
          }
        }
        var calls;
        if kind.Result? {
          calls := SendResult(prompt, kind.hasText, bot);
        } else {
          calls := SendNoticeControl(prompt, kind, bot);
        }
        Record(c, now, card, bot, true, calls);
      case TakeOver(prompt) =>
        if prompt != "" {
          Finish(prompt);
        }
        Record(c, now, card, bot, false, []);
      case Other(_) =>
        Record(c, now, card, bot, false, []);
    }
  }

  // ---------------------------------------------------------------- the frontend as a machine

  /** `accepted` is every control the handler ever queued. */
  datatype Front = Front(queue: seq<Control>, accepted: seq<Control>, pump: Pump, clock: int)

  datatype Step =
    | Handle(r: Request)
    | Serve(now: int, bot: Bot)
    | Prune(now: int)
    | Start(prompt: string, card: string)
    | Reclaim(prompt: string)

  function Begin(clock: int): Front {
    Front([], [], Pump(Guard(map[], TERMINAL_TTL, 0), map[], []), clock)
  }

  function Next(s: Front, e: Step): Front {
    match e
    case Handle(r) =>
      s.(queue := Queued(s.queue, r),
         accepted := if Enqueues(r, |s.queue|) then s.accepted + [r.body.value] else s.accepted)
    case Serve(now, bot) =>
      if s.queue == [] then s.(clock := now)
      else s.(queue := s.queue[1..], pump := Dispatched(s.pump, s.queue[0], now, bot), clock := now)
    case Prune(now) =>
      s.(pump := s.pump.(guard := s.pump.guard.(seen := Swept(s.pump.guard, now))), clock := now)
    case Start(prompt, card) =>
      s.(pump := s.pump.(turns := s.pump.turns[prompt := card]))
    case Reclaim(prompt) =>
      s.(pump := s.pump.(turns := s.pump.turns - {prompt}))
  }

  /** Terminal copies of one prompt among some controls. */
  function Copies(cs: seq<Control>, prompt: string): nat {
    if cs == [] then 0
    else Copies(cs[..|cs| - 1], prompt) + if cs[|cs| - 1].Terminal? && cs[|cs| - 1].prompt == prompt then 1 else 0
  }

  /** The clock does not run backwards, and a turn starts before its backend can answer it. */
  predicate Possible(s: Front, e: Step) {
    match e
    case Serve(now, _) => now >= s.clock
    case Prune(now) => now >= s.clock
    case Start(prompt, _) => Copies(s.accepted, prompt) == 0
    case _ => true
  }

  predicate IsRun(clock: int, steps: seq<Step>) {
    AllAlong(Next, Possible, Begin(clock), steps)
  }

  function After(clock: int, steps: seq<Step>): Front {
    Fold(Next, Begin(clock), steps)
  }

  // ---------------------------------------------------------------- nothing queued is lost

  function Controls(log: seq<Entry>): seq<Control> {
    if log == [] then [] else Controls(log[..|log| - 1]) + [log[|log| - 1].control]
  }

  lemma ControlsSnoc(log: seq<Entry>, e: Entry)
    ensures Controls(log + [e]) == Controls(log) + [e.control]
  {
    assert (log + [e])[..|log|] == log;
  }

  lemma StepConserves(s: Front, e: Step)
    requires s.accepted == Controls(s.pump.log) + s.queue
    ensures Next(s, e).accepted == Controls(Next(s, e).pump.log) + Next(s, e).queue
  {
    match e
    case Handle(r) =>
      if Enqueues(r, |s.queue|) {
        var c := r.body.value;
        assert Controls(s.pump.log) + (s.queue + [c]) == (Controls(s.pump.log) + s.queue) + [c];
      }
    case Serve(now, bot) =>
      if s.queue != [] {
        var done := Controls(s.pump.log);
        ControlsSnoc(s.pump.log, EntryOf(s.pump, s.queue[0], now, bot));
        assert (done + [s.queue[0]]) + s.queue[1..] == done + s.queue;
      }
    case _ =>
  }

  /** Conservation and order: what was queued is what was dispatched followed by what still waits. */
  lemma {:induction false} QueuedIsDispatchedOrWaiting(clock: int, steps: seq<Step>)
    ensures var s := After(clock, steps); s.accepted == Controls(s.pump.log) + s.queue
  {
    if steps != [] {
      QueuedIsDispatchedOrWaiting(clock, steps[..|steps| - 1]);
      StepConserves(After(clock, steps[..|steps| - 1]), steps[|steps| - 1]);
    }
  }

  // ---------------------------------------------------------------- which copies are rendered

  predicate Concerns(e: Entry, prompt: string) {
    e.control.Terminal? && e.control.prompt == prompt
  }

  /** When the last copy of `prompt` was rendered. */
  function LastRendered(log: seq<Entry>, prompt: string): Option<int> {
    if log == [] then None
    else
      var e := log[|log| - 1];
      if Concerns(e, prompt) && e.rendered then Some(e.at) else LastRendered(log[..|log| - 1], prompt)
  }

  lemma LastRenderedSnoc(log: seq<Entry>, e: Entry, prompt: string)
    ensures LastRendered(log + [e], prompt) ==
            if Concerns(e, prompt) && e.rendered then Some(e.at) else LastRendered(log, prompt)
  {
    assert (log + [e])[..|log|] == log;
  }

  /** The guard knows of `prompt` exactly what history does, except what has expired. */
  predicate GuardIsHistory(s: Front, prompt: string) {
    var g := s.pump.guard;
    var last := LastRendered(s.pump.log, prompt);
    && g.ttl == TERMINAL_TTL && g.maxEntries == 0
    && (prompt in g.seen ==> last == Some(g.seen[prompt]))
    && (prompt !in g.seen && last.Some? ==> s.clock - last.value > TERMINAL_TTL)
  }

  /** What the guard answers is what history says. */
  lemma HistoryAnswers(s: Front, prompt: string, now: int)
    requires prompt != "" && GuardIsHistory(s, prompt) && now >= s.clock
    ensures var last := LastRendered(s.pump.log, prompt);
            Fresh(s.pump.guard, prompt, now) <==> last.None? || now - last.value > TERMINAL_TTL
  {
  }

  lemma DispatchKeepsHistory(s: Front, c: Control, now: int, bot: Bot, prompt: string)
    requires prompt != "" && GuardIsHistory(s, prompt) && now >= s.clock
    ensures GuardIsHistory(s.(pump := Dispatched(s.pump, c, now, bot), clock := now), prompt)
  {
    LastRenderedSnoc(s.pump.log, EntryOf(s.pump, c, now, bot), prompt);
  }

  lemma StepKeepsHistory(s: Front, e: Step, prompt: string)
    requires prompt != "" && GuardIsHistory(s, prompt) && Possible(s, e)
    ensures GuardIsHistory(Next(s, e), prompt)
  {
    match e
    case Serve(now, bot) =>
      if s.queue != [] {
        DispatchKeepsHistory(s.(queue := s.queue[1..]), s.queue[0], now, bot, prompt);
      }
    case _ =>
  }

  lemma {:induction false} GuardAlwaysHistory(clock: int, steps: seq<Step>, prompt: string)
    requires IsRun(clock, steps) && prompt != ""
    ensures GuardIsHistory(After(clock, steps), prompt)
  {
    if steps != [] {
      GuardAlwaysHistory(clock, steps[..|steps| - 1], prompt);
      StepKeepsHistory(After(clock, steps[..|steps| - 1]), steps[|steps| - 1], prompt);
    }
  }

  /** Main result: in every run, the next copy of a prompt is rendered exactly when it has no id or none was in the
      last ten minutes; the sweeps and all other traffic make no difference. */
  lemma RenderedExactlyWhenNew(clock: int, steps: seq<Step>, now: int, bot: Bot)
    requires IsRun(clock, steps + [Serve(now, bot)])
    requires var s := After(clock, steps); s.queue != [] && s.queue[0].Terminal?
    ensures var s, log := After(clock, steps), After(clock, steps + [Serve(now, bot)]).pump.log;
            var last := LastRendered(s.pump.log, s.queue[0].prompt);
            && |log| == |s.pump.log| + 1
            && log[|s.pump.log|].control == s.queue[0]
            && log[|s.pump.log|].bot == bot
            && log[|s.pump.log|].card ==
               (if s.queue[0].prompt in s.pump.turns then s.pump.turns[s.queue[0].prompt] else "")
            && (log[|s.pump.log|].rendered <==>
                s.queue[0].prompt == "" || last.None? || now - last.value > TERMINAL_TTL)
  {
    var all := steps + [Serve(now, bot)];
    assert all[..|all| - 1] == steps;
    var s := After(clock, steps);
    if s.queue[0].prompt != "" {
      GuardAlwaysHistory(clock, steps, s.queue[0].prompt);
      HistoryAnswers(s, s.queue[0].prompt, now);
    }
  }

  // ---------------------------------------------------------------- exactly once

  function Renders(log: seq<Entry>, prompt: string): nat {
    if log == [] then 0
    else
      var e := log[|log| - 1];
      Renders(log[..|log| - 1], prompt) + if Concerns(e, prompt) && e.rendered then 1 else 0
  }

  /** When the first copy of `prompt` was dispatched. */
  function First(log: seq<Entry>, prompt: string): Option<int> {
    if log == [] then None
    else
      var before := First(log[..|log| - 1], prompt);
      if before.Some? then before
      else if Concerns(log[|log| - 1], prompt) then Some(log[|log| - 1].at)
      else None
  }

  /** Every copy of `prompt` was dispatched at most a TTL after the first. */
  predicate WithinTtl(log: seq<Entry>, prompt: string) {
    log == [] ||
    (WithinTtl(log[..|log| - 1], prompt)
     && (Concerns(log[|log| - 1], prompt) ==> log[|log| - 1].at - First(log, prompt).value <= TERMINAL_TTL))
  }

  lemma LogSnoc(log: seq<Entry>, e: Entry, prompt: string)
    ensures Renders(log + [e], prompt) == Renders(log, prompt) + if Concerns(e, prompt) && e.rendered then 1 else 0
    ensures First(log + [e], prompt) ==
            if First(log, prompt).Some? then First(log, prompt)
            else if Concerns(e, prompt) then Some(e.at) else None
    ensures WithinTtl(log + [e], prompt) <==>
            WithinTtl(log, prompt)
            && (Concerns(e, prompt) ==> e.at - First(log + [e], prompt).value <= TERMINAL_TTL)
  {
    assert (log + [e])[..|log|] == log;
  }

  /** So far the first copy, and only the first, was rendered. */
  predicate OnlyFirst(log: seq<Entry>, prompt: string) {
    && LastRendered(log, prompt) == First(log, prompt)
    && Renders(log, prompt) == if First(log, prompt).Some? then 1 else 0
  }

  lemma OnlyFirstSnoc(log: seq<Entry>, e: Entry, prompt: string)
    requires OnlyFirst(log, prompt) && WithinTtl(log + [e], prompt)
    requires Concerns(e, prompt) ==>
               (e.rendered <==>
                LastRendered(log, prompt).None? || e.at - LastRendered(log, prompt).value > TERMINAL_TTL)
    ensures OnlyFirst(log + [e], prompt)
  {
    LogSnoc(log, e, prompt);
    LastRenderedSnoc(log, e, prompt);
  }

  lemma DispatchIsOnlyFirst(s: Front, c: Control, now: int, bot: Bot, prompt: string)
    requires prompt != "" && GuardIsHistory(s, prompt) && now >= s.clock
    requires OnlyFirst(s.pump.log, prompt)
    requires WithinTtl(Dispatched(s.pump, c, now, bot).log, prompt)
    ensures OnlyFirst(Dispatched(s.pump, c, now, bot).log, prompt)
  {
    HistoryAnswers(s, prompt, now);
    OnlyFirstSnoc(s.pump.log, EntryOf(s.pump, c, now, bot), prompt);
  }

  lemma WithinBefore(s: Front, e: Step, prompt: string)
    requires WithinTtl(Next(s, e).pump.log, prompt)
    ensures WithinTtl(s.pump.log, prompt)
  {
    if e.Serve? && s.queue != [] {
      LogSnoc(s.pump.log, EntryOf(s.pump, s.queue[0], e.now, e.bot), prompt);
    }
  }

  lemma {:induction false} FirstIsRendered(clock: int, steps: seq<Step>, prompt: string)
    requires IsRun(clock, steps) && prompt != "" && WithinTtl(After(clock, steps).pump.log, prompt)
    ensures OnlyFirst(After(clock, steps).pump.log, prompt)
  {
    if steps != [] {
      var before, e := steps[..|steps| - 1], steps[|steps| - 1];
      var s := After(clock, before);
      WithinBefore(s, e, prompt);
      FirstIsRendered(clock, before, prompt);
      GuardAlwaysHistory(clock, before, prompt);
      if e.Serve? && s.queue != [] {
        DispatchIsOnlyFirst(s, s.queue[0], e.now, e.bot, prompt);
      }
    }
  }

  /** A prompt that was never rendered is rendered at its next copy: the first one is never refused. */
  lemma {:induction false} FirstIsNeverRefused(clock: int, steps: seq<Step>, prompt: string)
    requires IsRun(clock, steps) && prompt != ""
    ensures var log := After(clock, steps).pump.log;
            (First(log, prompt).Some? <==> Renders(log, prompt) > 0)
            && (LastRendered(log, prompt).Some? <==> Renders(log, prompt) > 0)
  {
    if steps != [] {
      var before, e := steps[..|steps| - 1], steps[|steps| - 1];
      var s := After(clock, before);
      FirstIsNeverRefused(clock, before, prompt);
      GuardAlwaysHistory(clock, before, prompt);
      if e.Serve? && s.queue != [] {
        var entry := EntryOf(s.pump, s.queue[0], e.now, e.bot);
        HistoryAnswers(s, prompt, e.now);
        LogSnoc(s.pump.log, entry, prompt);
        LastRenderedSnoc(s.pump.log, entry, prompt);
      }
    }
  }

  // ---------------------------------------------------------------- the turn

  /** The entry that rendered `prompt`, if one did. */
  function Rendering(log: seq<Entry>, prompt: string): Option<Entry> {
    if log == [] then None
    else
      var e := log[|log| - 1];
      if Concerns(e, prompt) && e.rendered then Some(e) else Rendering(log[..|log| - 1], prompt)
  }

  /** What was rendered was shown exactly when the chat service took it. */
  predicate ShownIfTaken(e: Entry) {
    e.rendered ==> e.control.Terminal?
                   && Successes(e.calls) == if e.bot.renders && Takes(e.control.kind, e.card, e.bot) then 1 else 0
  }

  lemma {:induction false} RenderedAreShownIfTaken(clock: int, steps: seq<Step>, i: nat)
    requires i < |After(clock, steps).pump.log|
    ensures ShownIfTaken(After(clock, steps).pump.log[i])
  {
    var before, e := steps[..|steps| - 1], steps[|steps| - 1];
    var s := After(clock, before);
    if i < |s.pump.log| {
      RenderedAreShownIfTaken(clock, before, i);
    } else {
      var c := s.queue[0];
      if c.Terminal? {
        ShownExactlyWhenTaken(c.kind, CardOf(s.pump.turns, c.prompt), e.bot);
      }
    }
  }

  predicate LetGo(log: seq<Entry>, prompt: string) {
    var e := Rendering(log, prompt);
    e.Some? && e.value.control.Terminal? && Releases(e.value.control.kind, e.value.calls)
  }

  lemma RenderingSnoc(log: seq<Entry>, e: Entry, prompt: string)
    ensures Rendering(log + [e], prompt) ==
            if Concerns(e, prompt) && e.rendered then Some(e) else Rendering(log, prompt)
  {
    assert (log + [e])[..|log|] == log;
  }

  /** Nothing but its terminal ends this prompt's turn. */
  predicate LeftAlone(prompt: string, s: Front, e: Step) {
    && Possible(s, e)
    && e != Reclaim(prompt)
    && (e.Serve? && s.queue != [] ==> s.queue[0] != TakeOver(prompt))
  }

  lemma {:induction false} CopiesSplit(a: seq<Control>, b: seq<Control>, prompt: string)
    ensures Copies(a + b, prompt) == Copies(a, prompt) + Copies(b, prompt)
  {
    if b == [] {
      assert a + b == a;
    } else {
      var n := |b| - 1;
      CopiesSplit(a, b[..n], prompt);
      assert (a + b)[..|a| + n] == a + b[..n];
    }
  }

  lemma {:induction false} ControlsLength(log: seq<Entry>)
    ensures |Controls(log)| == |log|
  {
    if log != [] {
      ControlsLength(log[..|log| - 1]);
    }
  }

  lemma {:induction false} RenderedMeansQueued(log: seq<Entry>, prompt: string)
    requires Rendering(log, prompt).Some?
    ensures Copies(Controls(log), prompt) > 0
  {
    var n := |log| - 1;
    assert Controls(log)[..n] == Controls(log[..n]) by { ControlsLength(log[..n]); }
    ControlsLength(log);
    if !(Concerns(log[n], prompt) && log[n].rendered) {
      RenderedMeansQueued(log[..n], prompt);
    }
  }

  /** No turn of a let-go prompt is open. */
  predicate Released(s: Front, prompt: string) {
    LetGo(s.pump.log, prompt) ==> prompt !in s.pump.turns
  }

  lemma DispatchReleases(p: Pump, c: Control, now: int, bot: Bot, prompt: string)
    requires LetGo(p.log, prompt) ==> prompt !in p.turns
    ensures LetGo(Dispatched(p, c, now, bot).log, prompt) ==> prompt !in Dispatched(p, c, now, bot).turns
  {
    RenderingSnoc(p.log, EntryOf(p, c, now, bot), prompt);
  }

  /** In every run, the turn of a prompt whose terminal was handled is gone and stays gone, unless
      that terminal patched a card and could not be delivered. */
  lemma {:induction false} HandledTurnsAreReleased(clock: int, steps: seq<Step>, prompt: string)
    requires IsRun(clock, steps)
    ensures Released(After(clock, steps), prompt)
  {
    if steps != [] {
      var before, e := steps[..|steps| - 1], steps[|steps| - 1];
      var s := After(clock, before);
      HandledTurnsAreReleased(clock, before, prompt);
      match e
      case Serve(now, bot) =>
        if s.queue != [] {
          DispatchReleases(s.pump, s.queue[0], now, bot, prompt);
        }
      case Start(started, _) =>
        if started == prompt && LetGo(s.pump.log, prompt) {
          RenderedMeansQueued(s.pump.log, prompt);
          QueuedIsDispatchedOrWaiting(clock, before);
          CopiesSplit(Controls(s.pump.log), s.queue, prompt);
        }
      case _ =>
    }
  }

  lemma {:induction false} LastIsRendering(log: seq<Entry>, prompt: string)
    ensures LastRendered(log, prompt).Some? <==> Rendering(log, prompt).Some?
    ensures Rendering(log, prompt).Some? ==>
              Rendering(log, prompt).value.control.Terminal? && Rendering(log, prompt).value.control.prompt == prompt
  {
    if log != [] {
      LastIsRendering(log[..|log| - 1], prompt);
    }
  }

  /** Within the TTL, a copy of a prompt already rendered is refused. */
  lemma CopyIsRefused(s: Front, c: Control, now: int, bot: Bot, prompt: string)
    requires prompt != "" && GuardIsHistory(s, prompt) && now >= s.clock
    requires OnlyFirst(s.pump.log, prompt) && WithinTtl(Dispatched(s.pump, c, now, bot).log, prompt)
    requires Rendering(s.pump.log, prompt).Some?
    ensures var e := EntryOf(s.pump, c, now, bot); Concerns(e, prompt) ==> !e.rendered
  {
    LogSnoc(s.pump.log, EntryOf(s.pump, c, now, bot), prompt);
    LastIsRendering(s.pump.log, prompt);
    HistoryAnswers(s, prompt, now);
  }

  /** And a failed patch strands it: the copies that follow cannot release it either. */
  predicate Stranded(log: seq<Entry>, prompt: string) {
    Rendering(log, prompt).Some? && !LetGo(log, prompt)
  }

  lemma DispatchStrands(s: Front, c: Control, now: int, bot: Bot, prompt: string)
    requires prompt != "" && GuardIsHistory(s, prompt) && now >= s.clock && c != TakeOver(prompt)
    requires OnlyFirst(s.pump.log, prompt) && WithinTtl(Dispatched(s.pump, c, now, bot).log, prompt)
    requires Stranded(s.pump.log, prompt) && prompt in s.pump.turns
    ensures prompt in Dispatched(s.pump, c, now, bot).turns
  {
    CopyIsRefused(s, c, now, bot, prompt);
  }

  lemma FirstDispatchDecides(p: Pump, c: Control, now: int, bot: Bot, prompt: string)
    requires prompt in p.turns && c != TakeOver(prompt)
    requires Rendering(p.log, prompt).None?
    ensures var after := Dispatched(p, c, now, bot);
            prompt in after.turns <==> !LetGo(after.log, prompt)
  {
    RenderingSnoc(p.log, EntryOf(p, c, now, bot), prompt);
  }

  lemma StrandedStays(s: Front, c: Control, now: int, bot: Bot, prompt: string)
    requires prompt != "" && GuardIsHistory(s, prompt) && now >= s.clock
    requires OnlyFirst(s.pump.log, prompt) && WithinTtl(Dispatched(s.pump, c, now, bot).log, prompt)
    requires Rendering(s.pump.log, prompt).Some?
    ensures LetGo(Dispatched(s.pump, c, now, bot).log, prompt) == LetGo(s.pump.log, prompt)
    ensures prompt !in s.pump.turns ==> prompt !in Dispatched(s.pump, c, now, bot).turns
  {
    CopyIsRefused(s, c, now, bot, prompt);
    RenderingSnoc(s.pump.log, EntryOf(s.pump, c, now, bot), prompt);
  }

  /** One more dispatch leaves the turn open exactly when no rendering let go of it. */
  lemma DispatchDecidesOnce(s: Front, c: Control, now: int, bot: Bot, prompt: string)
    requires prompt != "" && GuardIsHistory(s, prompt) && now >= s.clock && c != TakeOver(prompt)
    requires OnlyFirst(s.pump.log, prompt) && WithinTtl(Dispatched(s.pump, c, now, bot).log, prompt)
    requires prompt in s.pump.turns <==> !LetGo(s.pump.log, prompt)
    ensures prompt in Dispatched(s.pump, c, now, bot).turns <==> !LetGo(Dispatched(s.pump, c, now, bot).log, prompt)
  {
    LastIsRendering(s.pump.log, prompt);
    if Rendering(s.pump.log, prompt).None? {
      FirstDispatchDecides(s.pump, c, now, bot, prompt);
    } else {
      StrandedStays(s, c, now, bot, prompt);
      if prompt in s.pump.turns {
        DispatchStrands(s, c, now, bot, prompt);
      }
    }
  }

  lemma StartedStays(clock: int, steps: seq<Step>, prompt: string)
    requires IsRun(clock, steps) && Copies(After(clock, steps).accepted, prompt) == 0
    ensures !LetGo(After(clock, steps).pump.log, prompt)
  {
    var s := After(clock, steps);
    if LetGo(s.pump.log, prompt) {
      RenderedMeansQueued(s.pump.log, prompt);
      QueuedIsDispatchedOrWaiting(clock, steps);
      CopiesSplit(Controls(s.pump.log), s.queue, prompt);
    }
  }

  lemma OpenStep(clock: int, steps: seq<Step>, s: Front, e: Step, prompt: string)
    requires prompt != "" && IsRun(clock, steps) && s == After(clock, steps) && LeftAlone(prompt, s, e)
    requires WithinTtl(s.pump.log, prompt) && WithinTtl(Next(s, e).pump.log, prompt)
    requires prompt in s.pump.turns <==> !LetGo(s.pump.log, prompt)
    ensures prompt in Next(s, e).pump.turns <==> !LetGo(Next(s, e).pump.log, prompt)
  {
    GuardAlwaysHistory(clock, steps, prompt);
    FirstIsRendered(clock, steps, prompt);
    match e
    case Serve(now, bot) =>
      if s.queue != [] {
        DispatchDecidesOnce(s, s.queue[0], now, bot, prompt);
      }
    case Start(started, _) =>
      if started == prompt {
        StartedStays(clock, steps, prompt);
      }
    case _ =>
  }

  lemma {:induction false} LeftAloneIsPossible(s: Front, steps: seq<Step>, prompt: string)
    requires AllAlong(Next, (t, e) => LeftAlone(prompt, t, e), s, steps)
    ensures AllAlong(Next, Possible, s, steps)
  {
    if steps != [] {
      LeftAloneIsPossible(s, steps[..|steps| - 1], prompt);
    }
  }

  /** Main result: a turn that nothing else ends is open exactly until its terminal was handled by a
      branch that lets go of it; with every copy inside the TTL, only the first copy counts. */
  lemma {:induction false} OpenExactlyUntilLetGo(s: Front, steps: seq<Step>, prompt: string,
                                                       clock: int, past: seq<Step>)
    requires prompt != "" && IsRun(clock, past) && s == After(clock, past)
    requires prompt in s.pump.turns && Copies(s.accepted, prompt) == 0
    requires AllAlong(Next, (t, e) => LeftAlone(prompt, t, e), s, steps)
    requires WithinTtl(Fold(Next, s, steps).pump.log, prompt)
    ensures var t := Fold(Next, s, steps);
            prompt in t.pump.turns <==> !LetGo(t.pump.log, prompt)
    decreases |steps|
  {
    if steps == [] {
      StartedStays(clock, past, prompt);
    } else {
      var before, e := steps[..|steps| - 1], steps[|steps| - 1];
      var t := Fold(Next, s, before);
      WithinBefore(t, e, prompt);
      OpenExactlyUntilLetGo(s, before, prompt, clock, past);
      LeftAloneIsPossible(s, before, prompt);
      FoldConcat(Next, Possible, Begin(clock), past, before);
      OpenStep(clock, past + before, t, e, prompt);
    }
  }

  // ---------------------------------------------------------------- copies and the log

  lemma {:induction false} FirstMeansCopies(log: seq<Entry>, prompt: string)
    ensures First(log, prompt).Some? <==> Copies(Controls(log), prompt) > 0
  {
    if log != [] {
      var n := |log| - 1;
      FirstMeansCopies(log[..n], prompt);
      ControlsLength(log[..n]);
      assert Controls(log)[..n] == Controls(log[..n]);
    }
  }

  /** Copies that were all dispatched inside one TTL are within the TTL of the first. */
  lemma {:induction false} SpreadFitsTtl(log: seq<Entry>, prompt: string, sent: int)
    requires forall i :: 0 <= i < |log| && Concerns(log[i], prompt) ==> sent <= log[i].at <= sent + TERMINAL_TTL
    ensures WithinTtl(log, prompt)
    ensures First(log, prompt).Some? ==> First(log, prompt).value >= sent
  {
    if log != [] {
      var n := |log| - 1;
      SpreadFitsTtl(log[..n], prompt, sent);
      assert log == log[..n] + [log[n]];
      LogSnoc(log[..n], log[n], prompt);
    }
  }
}
