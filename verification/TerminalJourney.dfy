/**
One turn's final control on its whole way: the backend's emission (internal/miniagent/prompt_result.go over
internal/backendrpc/client.go), the network, which delivers or loses requests and replies as it likes, and the
frontend with all its other traffic, in one machine. A POST may arrive after the emission gave up on it.
*/
module TerminalJourney {
  import opened Options
  import opened Runs
  import opened TerminalDelivery
  import TerminalSender
  import ReplayGuard

  /** A POST the emission made: when, and what the handler answered once it had arrived. */
  datatype Posted = Posted(at: int, status: Option<nat>)

  /**
  The emission of `copy`, begun at `t0`, and the frontend. `origins` says of each control the frontend ever
  accepted which of `posts` brought it, if one did.
  */
  datatype Journey = Journey(
    copy: Control,
    valid: bool,
    t0: int,
    now: int,
    sender: TerminalSender.Sender,
    posts: seq<Posted>,
    front: Front,
    origins: seq<Option<nat>>
  )

  /** What the handler finds out about a POST before it looks at the control itself. */
  datatype Gate = Gate(authOK: bool, named: bool, registered: bool, tokenOk: bool, readable: bool)

  datatype Move =
    | Tick(ms: nat)
    | Issue
    | Arrive(post: nat, gate: Gate)
    | Answer
    | Break
    | Expire
    | Wake
    | Reject
    | Shutdown
    | Traffic(r: Request)
    | Dispatch(bot: Bot)
    | Sweep
    | Open(prompt: string, card: string)
    | Reclaimed(prompt: string)

  function RequestOf(j: Journey, gate: Gate): Request {
    Request(gate.authOK, gate.named, gate.registered, gate.tokenOk,
            if gate.readable then Some(j.copy) else None, j.valid, false)
  }

  /** A POST arrives at most once. */
  predicate Arrives(j: Journey, m: Move) {
    m.Arrive? && m.post < |j.posts| && j.posts[m.post].status.None?
  }

  /** The frontend's part in a move. */
  function FrontStep(j: Journey, m: Move): Option<Step> {
    match m
    case Arrive(_, gate) => if Arrives(j, m) then Some(Handle(RequestOf(j, gate))) else None
    case Traffic(r) => Some(Handle(r))
    case Dispatch(bot) => Some(Serve(j.now, bot))
    case Sweep => Some(Prune(j.now))
    case Open(prompt, card) => Some(Start(prompt, card))
    case Reclaimed(prompt) => Some(Reclaim(prompt))
    case _ => None
  }

  /** The emission's part in a move; only the reply to its latest POST still finds it waiting. */
  function SenderPart(j: Journey, m: Move): Option<TerminalSender.SenderStep> {
    match m
    case Issue => Some(TerminalSender.Issue)
    case Answer =>
      if j.posts != [] && j.posts[|j.posts| - 1].status.Some?
      then Some(TerminalSender.Answer(j.posts[|j.posts| - 1].status.value, j.now)) else None
    case Break => Some(TerminalSender.Error(j.now))
    case Expire => Some(TerminalSender.Timeout(j.now))
    case Wake => Some(TerminalSender.Wake(j.now))
    case Reject => Some(TerminalSender.Reject(j.now))
    case Shutdown => Some(TerminalSender.Shutdown)
    case _ => None
  }

  function FrontAfter(j: Journey, m: Move): Front {
    var e := FrontStep(j, m);
    if e.Some? then TerminalDelivery.Next(j.front, e.value) else j.front
  }

  function SenderAfter(j: Journey, m: Move): TerminalSender.Sender {
    var e := SenderPart(j, m);
    if e.Some? then TerminalSender.SenderNext(j.sender, e.value) else j.sender
  }

  function PostsAfter(j: Journey, m: Move): seq<Posted> {
    if m.Issue? && j.sender.Ready? then j.posts + [Posted(j.now, None)]
    else if Arrives(j, m) then
      j.posts[m.post := Posted(j.posts[m.post].at, Some(Status(RequestOf(j, m.gate), |j.front.queue|)))]
    else j.posts
  }

  function OriginsAfter(j: Journey, m: Move): seq<Option<nat>> {
    var e := FrontStep(j, m);
    if e.Some? && e.value.Handle? && Enqueues(e.value.r, |j.front.queue|)
    then j.origins + [if m.Arrive? then Some(m.post) else None]
    else j.origins
  }

  function Advance(j: Journey, m: Move): Journey {
    j.(now := if m.Tick? then j.now + m.ms else j.now,
       sender := SenderAfter(j, m),
       posts := PostsAfter(j, m),
       front := FrontAfter(j, m),
       origins := OriginsAfter(j, m))
  }

  predicate IsCopy(c: Control, prompt: string) {
    c.Terminal? && c.prompt == prompt
  }

  /** Timers fire when due, the control is checked before it is posted, and nobody else posts a final control
      for this prompt. */
  predicate Feasible(j: Journey, m: Move) {
    match m
    case Tick(ms) =>
      var due := TerminalSender.Deadline(j.sender);
      due.Some? ==> j.now + ms <= due.value
    case Issue => j.valid
    case Reject => !j.valid
    case Traffic(r) => r.body.Some? ==> !IsCopy(r.body.value, j.copy.prompt)
    case Open(prompt, _) => Copies(j.front.accepted, prompt) == 0
    case _ => true
  }

  /** An emission begins beside a frontend that has been running for any while. */
  predicate Begins(j: Journey, clock: int, past: seq<Step>) {
    && j.copy.Terminal? && j.copy.prompt != ""
    && j.now == j.t0 && j.sender == TerminalSender.Start(j.t0) && j.posts == []
    && IsRun(clock, past) && j.front == After(clock, past) && j.front.clock <= j.now
    && Copies(j.front.accepted, j.copy.prompt) == 0
    && j.origins == seq(|j.front.accepted|, _ => None)
  }

  predicate IsJourney(j: Journey, moves: seq<Move>) {
    AllAlong(Advance, Feasible, j, moves)
  }

  function End(j: Journey, moves: seq<Move>): Journey {
    Fold(Advance, j, moves)
  }

  // ---------------------------------------------------------------- the frontend's own run

  /** What the frontend alone lives through. */
  function FrontRun(j: Journey, moves: seq<Move>): seq<Step> {
    if moves == [] then []
    else
      var n := |moves| - 1;
      var e := FrontStep(End(j, moves[..n]), moves[n]);
      FrontRun(j, moves[..n]) + if e.Some? then [e.value] else []
  }

  lemma StepKeepsClock(j: Journey, m: Move)
    requires j.front.clock <= j.now && Feasible(j, m)
    ensures var e := FrontStep(j, m);
            if e.Some? then Possible(j.front, e.value) && Advance(j, m).front == Next(j.front, e.value)
            else Advance(j, m).front == j.front
    ensures Advance(j, m).front.clock <= Advance(j, m).now
    ensures Advance(j, m).copy == j.copy && Advance(j, m).valid == j.valid && Advance(j, m).t0 == j.t0
  {
  }

  lemma {:induction false} FrontRunsAlone(j: Journey, moves: seq<Move>, clock: int, past: seq<Step>)
    requires Begins(j, clock, past) && IsJourney(j, moves)
    ensures IsRun(clock, past + FrontRun(j, moves))
    ensures End(j, moves).front == After(clock, past + FrontRun(j, moves))
    ensures End(j, moves).front.clock <= End(j, moves).now
    ensures End(j, moves).copy == j.copy && End(j, moves).valid == j.valid && End(j, moves).t0 == j.t0
  {
    hide Advance, Feasible, FrontStep, Possible, Next;
    if moves == [] {
      assert past + FrontRun(j, moves) == past;
    } else {
      var n := |moves| - 1;
      FrontRunsAlone(j, moves[..n], clock, past);
      var k, m := End(j, moves[..n]), moves[n];
      StepKeepsClock(k, m);
      var done := past + FrontRun(j, moves[..n]);
      var e := FrontStep(k, m);
      if e.Some? {
        assert past + FrontRun(j, moves) == done + [e.value];
        assert (done + [e.value])[..|done|] == done;
      } else {
        assert past + FrontRun(j, moves) == done;
      }
    }
  }

  // ---------------------------------------------------------------- what is accepted, and what is known of it

  predicate MarkedAt(j: Journey, i: nat)
    requires |j.origins| == |j.front.accepted| && i < |j.origins|
  {
    if j.origins[i].Some? then
      && j.origins[i].value < |j.posts|
      && j.posts[j.origins[i].value].status == Some(202)
      && j.front.accepted[i] == j.copy
    else !IsCopy(j.front.accepted[i], j.copy.prompt)
  }

  /** The copies the frontend accepted are those the emission's POSTs brought, each POST at most one, and a POST
      was answered 202 exactly when its copy was accepted. */
  predicate Marked(j: Journey) {
    && |j.origins| == |j.front.accepted|
    && (forall i :: 0 <= i < |j.origins| ==> MarkedAt(j, i))
    && (forall i, k :: 0 <= i < k < |j.origins| && j.origins[i].Some? ==> j.origins[i] != j.origins[k])
    && (forall p :: 0 <= p < |j.posts| && j.posts[p].status == Some(202) ==> Some(p) in j.origins)
  }

  lemma ArrivalIsMarked(j: Journey, m: Move)
    requires Marked(j) && Arrives(j, m)
    ensures Marked(Advance(j, m))
  {
    var k := Advance(j, m);
    forall i | 0 <= i < |k.origins| ensures MarkedAt(k, i) {
      if i < |j.origins| {
        assert MarkedAt(j, i);
      }
    }
    assert forall i :: 0 <= i < |j.origins| ==> MarkedAt(j, i);
    forall i | 0 <= i < |j.origins| ensures j.origins[i] != Some(m.post) {
      assert MarkedAt(j, i);
    }
    if Enqueues(RequestOf(j, m.gate), |j.front.queue|) {
      assert k.origins[|j.origins|] == Some(m.post);
    }
    forall p | 0 <= p < |k.posts| && k.posts[p].status == Some(202) ensures Some(p) in k.origins {
      if p != m.post {
        assert Some(p) in j.origins;
      }
    }
  }

  lemma StepKeepsMarks(j: Journey, m: Move)
    requires Marked(j) && Feasible(j, m)
    ensures Marked(Advance(j, m))
  {
    var k := Advance(j, m);
    if Arrives(j, m) {
      ArrivalIsMarked(j, m);
    } else {
      assert forall p :: 0 <= p < |k.posts| && k.posts[p].status == Some(202) ==> p < |j.posts|;
      forall i | 0 <= i < |k.origins| ensures MarkedAt(k, i) {
        if i < |j.origins| {
          assert MarkedAt(j, i);
        }
      }
    }
  }

  /** The emission ends with nil only on a 202 that one of its POSTs was given. */
  predicate Acknowledged(j: Journey) {
    && (j.sender.Awaiting? ==> j.posts != [])
    && (j.sender == TerminalSender.Done(true) ==> exists p :: 0 <= p < |j.posts| && j.posts[p].status == Some(202))
  }

  lemma StepKeepsAcknowledged(j: Journey, m: Move)
    requires Acknowledged(j)
    ensures Acknowledged(Advance(j, m))
  {
    var k := Advance(j, m);
    if k.sender == TerminalSender.Done(true) {
      if j.sender == TerminalSender.Done(true) {
        var p :| 0 <= p < |j.posts| && j.posts[p].status == Some(202);
        assert k.posts[p].status == Some(202);
      } else {
        assert k.posts[|j.posts| - 1].status == Some(202);
      }
    }
  }

  // ---------------------------------------------------------------- when

  /** Every POST was made within 27 seconds of the emission's start. */
  predicate Punctual(j: Journey) {
    var due := TerminalSender.Deadline(j.sender);
    && TerminalSender.OnTime(j.sender, j.t0)
    && (due.Some? ==> j.now <= due.value)
    && j.t0 <= j.now
    && forall p :: 0 <= p < |j.posts| ==> j.t0 <= j.posts[p].at <= j.t0 + 27000 && j.posts[p].at <= j.now
  }

  lemma SenderStaysPunctual(j: Journey, m: Move)
    requires Punctual(j) && Feasible(j, m)
    ensures TerminalSender.OnTime(SenderAfter(j, m), j.t0)
    ensures var due := TerminalSender.Deadline(SenderAfter(j, m)); due.Some? ==> Advance(j, m).now <= due.value
  {
    var e := SenderPart(j, m);
    if e.Some? {
      TerminalSender.StepStaysOnTime(j.sender, e.value, j.t0);
    }
  }

  lemma StepStaysPunctual(j: Journey, m: Move)
    requires Punctual(j) && Feasible(j, m)
    ensures Punctual(Advance(j, m))
  {
    SenderStaysPunctual(j, m);
    TerminalSender.SpanIsBounded(j.sender, j.t0);
  }

  /** A copy is dispatched after its POST was made. */
  predicate InOrder(j: Journey) {
    && |j.front.pump.log| <= |j.origins|
    && forall i :: 0 <= i < |j.front.pump.log| && j.origins[i].Some? ==>
         j.origins[i].value < |j.posts| && j.posts[j.origins[i].value].at <= j.front.pump.log[i].at
  }

  lemma StepStaysInOrder(j: Journey, m: Move)
    requires InOrder(j) && Marked(j) && Punctual(j)
    requires |j.front.accepted| == |j.front.pump.log| + |j.front.queue|
    ensures InOrder(Advance(j, m))
  {
    var k := Advance(j, m);
    forall i | 0 <= i < |k.front.pump.log| && k.origins[i].Some?
      ensures k.origins[i].value < |k.posts| && k.posts[k.origins[i].value].at <= k.front.pump.log[i].at
    {
      assert MarkedAt(j, i);
    }
  }

  lemma LengthsAdd(j: Journey, moves: seq<Move>, clock: int, past: seq<Step>)
    requires Begins(j, clock, past) && IsJourney(j, moves)
    ensures var f := End(j, moves).front; |f.accepted| == |f.pump.log| + |f.queue|
  {
    FrontRunsAlone(j, moves, clock, past);
    QueuedIsDispatchedOrWaiting(clock, past + FrontRun(j, moves));
    ControlsLength(End(j, moves).front.pump.log);
  }

  lemma {:induction false} NoneAmong(cs: seq<Control>, prompt: string, i: nat)
    requires Copies(cs, prompt) == 0 && i < |cs|
    ensures !IsCopy(cs[i], prompt)
  {
    if i < |cs| - 1 {
      NoneAmong(cs[..|cs| - 1], prompt, i);
    }
  }

  lemma NothingYet(j: Journey, clock: int, past: seq<Step>)
    requires Begins(j, clock, past)
    ensures Marked(j) && Acknowledged(j) && Punctual(j) && InOrder(j)
  {
    LengthsAdd(j, [], clock, past);
    forall i | 0 <= i < |j.origins| ensures MarkedAt(j, i) {
      NoneAmong(j.front.accepted, j.copy.prompt, i);
    }
  }

  lemma {:induction false} AlwaysAccounted(j: Journey, moves: seq<Move>, clock: int, past: seq<Step>)
    requires Begins(j, clock, past) && IsJourney(j, moves)
    ensures var k := End(j, moves); Marked(k) && Acknowledged(k) && Punctual(k) && InOrder(k)
  {
    if moves == [] {
      NothingYet(j, clock, past);
    } else {
      var n := |moves| - 1;
      var before, m := End(j, moves[..n]), moves[n];
      AlwaysAccounted(j, moves[..n], clock, past);
      LengthsAdd(j, moves[..n], clock, past);
      StepKeepsMarks(before, m);
      StepKeepsAcknowledged(before, m);
      StepStaysPunctual(before, m);
      StepStaysInOrder(before, m);
    }
  }

  /** How many POSTs were answered 202. */
  function Taken(posts: seq<Posted>): nat {
    if posts == [] then 0
    else Taken(posts[..|posts| - 1]) + if posts[|posts| - 1].status == Some(202) then 1 else 0
  }

  lemma {:induction false} TakenWhenAnswered(posts: seq<Posted>, p: nat, status: nat)
    requires p < |posts| && posts[p].status.None?
    ensures Taken(posts[p := Posted(posts[p].at, Some(status))]) == Taken(posts) + if status == 202 then 1 else 0
  {
    var n := |posts| - 1;
    var after := posts[p := Posted(posts[p].at, Some(status))];
    if p == n {
      assert after[..n] == posts[..n];
    } else {
      TakenWhenAnswered(posts[..n], p, status);
      assert after[..n] == posts[..n][p := Posted(posts[p].at, Some(status))];
    }
  }

  lemma StepKeepsCount(j: Journey, m: Move)
    requires Feasible(j, m) && j.copy.Terminal?
    requires Copies(j.front.accepted, j.copy.prompt) == Taken(j.posts)
    ensures Copies(Advance(j, m).front.accepted, j.copy.prompt) == Taken(Advance(j, m).posts)
  {
    if Arrives(j, m) {
      TakenWhenAnswered(j.posts, m.post, Status(RequestOf(j, m.gate), |j.front.queue|));
    }
    var old' := j.front.accepted;
    var e := FrontStep(j, m);
    if e.Some? && e.value.Handle? && Enqueues(e.value.r, |j.front.queue|) {
      assert (old' + [e.value.r.body.value])[..|old'|] == old';
    }
    assert (j.posts + [Posted(j.now, None)])[..|j.posts|] == j.posts;
  }

  lemma {:induction false} AcceptedAreTaken(j: Journey, moves: seq<Move>, clock: int, past: seq<Step>)
    requires Begins(j, clock, past) && IsJourney(j, moves)
    ensures Copies(End(j, moves).front.accepted, j.copy.prompt) == Taken(End(j, moves).posts)
  {
    if moves != [] {
      var n := |moves| - 1;
      AcceptedAreTaken(j, moves[..n], clock, past);
      FrontRunsAlone(j, moves[..n], clock, past);
      StepKeepsCount(End(j, moves[..n]), moves[n]);
    }
  }

  /** Conservation: the copies dispatched and the copies waiting are together as many as the POSTs that were
      answered 202, whatever became of the answers. */
  lemma {:induction false} EachAnswerIsACopy(j: Journey, moves: seq<Move>, clock: int, past: seq<Step>)
    requires Begins(j, clock, past) && IsJourney(j, moves)
    ensures var k := End(j, moves);
            Copies(Controls(k.front.pump.log), j.copy.prompt) + Copies(k.front.queue, j.copy.prompt) == Taken(k.posts)
  {
    AcceptedAreTaken(j, moves, clock, past);
    FrontRunsAlone(j, moves, clock, past);
    QueuedIsDispatchedOrWaiting(clock, past + FrontRun(j, moves));
    var f := End(j, moves).front;
    CopiesSplit(Controls(f.pump.log), f.queue, j.copy.prompt);
  }

  // ---------------------------------------------------------------- exactly once

  /** Every copy dispatched so far was dispatched at most `delay` milliseconds after its POST was made. */
  predicate OnSchedule(j: Journey, delay: nat) {
    forall i :: 0 <= i < |j.front.pump.log| && i < |j.origins| && j.origins[i].Some?
                && j.origins[i].value < |j.posts| ==>
      j.front.pump.log[i].at - j.posts[j.origins[i].value].at <= delay
  }

  lemma {:induction false} ControlsAt(log: seq<Entry>, i: nat)
    requires i < |log|
    ensures |Controls(log)| == |log| && Controls(log)[i] == log[i].control
  {
    var n := |log| - 1;
    ControlsLength(log[..n]);
    if i < n {
      ControlsAt(log[..n], i);
    }
  }

  lemma CopiesAreTimely(j: Journey, moves: seq<Move>, clock: int, past: seq<Step>, delay: nat)
    requires Begins(j, clock, past) && IsJourney(j, moves) && OnSchedule(End(j, moves), delay)
    ensures var log := End(j, moves).front.pump.log;
            forall i :: 0 <= i < |log| && Concerns(log[i], j.copy.prompt) ==> j.t0 <= log[i].at <= j.t0 + 27000 + delay
  {
    var k := End(j, moves);
    var log := k.front.pump.log;
    AlwaysAccounted(j, moves, clock, past);
    FrontRunsAlone(j, moves, clock, past);
    QueuedIsDispatchedOrWaiting(clock, past + FrontRun(j, moves));
    forall i | 0 <= i < |log| && Concerns(log[i], j.copy.prompt)
      ensures j.t0 <= log[i].at <= j.t0 + 27000 + delay
    {
      ControlsAt(log, i);
      assert k.front.accepted[i] == log[i].control;
      assert MarkedAt(k, i);
    }
  }

  lemma {:induction false} TakenIsPositive(posts: seq<Posted>, p: nat)
    requires p < |posts| && posts[p].status == Some(202)
    ensures Taken(posts) > 0
  {
    if p < |posts| - 1 {
      TakenIsPositive(posts[..|posts| - 1], p);
    }
  }

  /** Never lost: when the emission was told of a delivery and no copy waits any more, the terminal was rendered,
      however late the copies were dispatched. */
  lemma NeverLost(j: Journey, moves: seq<Move>, clock: int, past: seq<Step>)
    requires Begins(j, clock, past) && IsJourney(j, moves)
    requires Copies(End(j, moves).front.queue, j.copy.prompt) == 0
    ensures var k := End(j, moves);
            && (Renders(k.front.pump.log, j.copy.prompt) > 0 <==> Taken(k.posts) > 0)
            && (k.sender == TerminalSender.Done(true) ==> Renders(k.front.pump.log, j.copy.prompt) > 0)
  {
    var k := End(j, moves);
    AlwaysAccounted(j, moves, clock, past);
    EachAnswerIsACopy(j, moves, clock, past);
    FrontRunsAlone(j, moves, clock, past);
    FirstMeansCopies(k.front.pump.log, j.copy.prompt);
    FirstIsNeverRefused(clock, past + FrontRun(j, moves), j.copy.prompt);
    if k.sender == TerminalSender.Done(true) {
      var p :| 0 <= p < |k.posts| && k.posts[p].status == Some(202);
      TakenIsPositive(k.posts, p);
    }
  }

  /** Never twice: whatever the emission made of its replies, copies dispatched no later than 573 seconds after
      their POSTs are rendered once at most. */
  lemma NeverTwice(j: Journey, moves: seq<Move>, clock: int, past: seq<Step>, delay: nat)
    requires Begins(j, clock, past) && IsJourney(j, moves)
    requires delay <= TERMINAL_TTL - 27000 && OnSchedule(End(j, moves), delay)
    ensures Renders(End(j, moves).front.pump.log, j.copy.prompt) <= 1
  {
    FrontRunsAlone(j, moves, clock, past);
    CopiesAreTimely(j, moves, clock, past, delay);
    SpreadFitsTtl(End(j, moves).front.pump.log, j.copy.prompt, j.t0);
    FirstIsRendered(clock, past + FrontRun(j, moves), j.copy.prompt);
  }

  lemma {:induction false} RenderingAt(log: seq<Entry>, prompt: string) returns (i: nat)
    requires Renders(log, prompt) > 0
    ensures i < |log| && Rendering(log, prompt) == Some(log[i]) && Concerns(log[i], prompt) && log[i].rendered
  {
    i := |log| - 1;
    if !(Concerns(log[i], prompt) && log[i].rendered) {
      i := RenderingAt(log[..i], prompt);
    }
  }

  /** Whatever was dispatched for the prompt is the copy. */
  lemma EntryIsTheCopy(j: Journey, moves: seq<Move>, clock: int, past: seq<Step>, i: nat)
    requires Begins(j, clock, past) && IsJourney(j, moves)
    requires i < |End(j, moves).front.pump.log| && Concerns(End(j, moves).front.pump.log[i], j.copy.prompt)
    ensures End(j, moves).front.pump.log[i].control == j.copy
  {
    var f := End(j, moves).front;
    FrontRunsAlone(j, moves, clock, past);
    AlwaysAccounted(j, moves, clock, past);
    QueuedIsDispatchedOrWaiting(clock, past + FrontRun(j, moves));
    ControlsAt(f.pump.log, i);
    hide Begins, IsJourney, IsRun, FrontRun, After, Controls;
    assert f.accepted[i] == f.pump.log[i].control;
    assert MarkedAt(End(j, moves), i);
  }

  /** The entry that rendered is one of the copy, and was shown if the chat service took it. */
  lemma RenderingIsTheCopy(j: Journey, moves: seq<Move>, clock: int, past: seq<Step>)
    requires Begins(j, clock, past) && IsJourney(j, moves)
    requires Renders(End(j, moves).front.pump.log, j.copy.prompt) > 0
    ensures var e := Rendering(End(j, moves).front.pump.log, j.copy.prompt);
            e.Some? && e.value.control == j.copy && e.value.rendered && ShownIfTaken(e.value)
  {
    var i := RenderingAt(End(j, moves).front.pump.log, j.copy.prompt);
    FrontRunsAlone(j, moves, clock, past);
    EntryIsTheCopy(j, moves, clock, past, i);
    RenderedAreShownIfTaken(clock, past + FrontRun(j, moves), i);
    hide *;
  }

  /** Main result: over every interleaving of lost and late requests and replies, retries, queueing and other
      traffic, an emission that ended with nil has its terminal rendered exactly once when its copies have been
      dispatched, none later than 573 seconds; that one rendering was shown, once, exactly when it rendered and the
      chat service took it; and the turn is gone unless it was a patch that was not shown. */
  lemma ExactlyOnce(j: Journey, moves: seq<Move>, clock: int, past: seq<Step>, delay: nat)
    requires Begins(j, clock, past) && IsJourney(j, moves)
    requires delay <= TERMINAL_TTL - 27000 && OnSchedule(End(j, moves), delay)
    requires End(j, moves).sender == TerminalSender.Done(true)
    requires Copies(End(j, moves).front.queue, j.copy.prompt) == 0
    ensures var f := End(j, moves).front;
            var e := Rendering(f.pump.log, j.copy.prompt);
            && Renders(f.pump.log, j.copy.prompt) == 1
            && e.Some? && e.value.control == j.copy
            && (var shown := e.value.bot.renders && Takes(j.copy.kind, e.value.card, e.value.bot);
                && Successes(e.value.calls) == (if shown then 1 else 0)
                && (j.copy.prompt !in f.pump.turns || (j.copy.kind.Patch? && !shown)))
  {
    NeverLost(j, moves, clock, past);
    NeverTwice(j, moves, clock, past, delay);
    RenderingIsTheCopy(j, moves, clock, past);
    FrontRunsAlone(j, moves, clock, past);
    HandledTurnsAreReleased(clock, past + FrontRun(j, moves), j.copy.prompt);
    hide Begins, IsJourney, OnSchedule, Copies, Takes, Successes, Rendering, Renders;
  }

  // ---------------------------------------------------------------- why the conditions are there

  /** A frontend at rest, and an emission about to begin. */
  function AtRest(copy: Control): Journey {
    Journey(copy, true, 0, 0, TerminalSender.Start(0), [], Begin(0), [])
  }

  const OPEN_GATE := Gate(true, true, true, true, true)

  lemma OneMore(j: Journey, moves: seq<Move>, m: Move)
    requires IsJourney(j, moves) && Feasible(End(j, moves), m)
    ensures IsJourney(j, moves + [m]) && End(j, moves + [m]) == Advance(End(j, moves), m)
  {
    assert (moves + [m])[..|moves|] == moves;
  }

  /** A move that is the sender's alone, or time passing. */
  lemma OneMoreAlone(j: Journey, moves: seq<Move>, m: Move)
    requires IsJourney(j, moves) && Feasible(End(j, moves), m)
    requires m.Tick? || m.Expire? || m.Wake? || m.Shutdown?
    ensures IsJourney(j, moves + [m])
    ensures var k := End(j, moves);
            End(j, moves + [m]) == k.(now := if m.Tick? then k.now + m.ms else k.now, sender := SenderAfter(k, m))
  {
    OneMore(j, moves, m);
  }

  /** The first POST is accepted and dispatched at once. */
  function FirstPost(bot: Bot): seq<Move> {
    [Issue, Arrive(0, OPEN_GATE), Dispatch(bot)]
  }

  lemma FirstPostArrives(copy: Control)
    requires copy.Terminal? && copy.prompt != ""
    ensures Begins(AtRest(copy), 0, []) && IsJourney(AtRest(copy), [Issue, Arrive(0, OPEN_GATE)])
    ensures End(AtRest(copy), [Issue, Arrive(0, OPEN_GATE)])
            == AtRest(copy).(sender := TerminalSender.Awaiting(1, 0, 5000), posts := [Posted(0, Some(202))],
                             origins := [Some(0)],
                             front := Begin(0).(queue := [copy], accepted := [copy]))
  {
    var j := AtRest(copy);
    assert [] + [Issue] == [Issue];
    OneMore(j, [], Issue);
    assert [Issue] + [Arrive(0, OPEN_GATE)] == [Issue, Arrive(0, OPEN_GATE)];
    OneMore(j, [Issue], Arrive(0, OPEN_GATE));
  }

  lemma FirstPostIsRendered(copy: Control, bot: Bot)
    requires copy.Terminal? && copy.prompt != ""
    ensures Begins(AtRest(copy), 0, []) && IsJourney(AtRest(copy), FirstPost(bot))
    ensures var k := End(AtRest(copy), FirstPost(bot));
            && k.sender == TerminalSender.Awaiting(1, 0, 5000) && k.now == 0
            && k.posts == [Posted(0, Some(202))] && k.origins == [Some(0)]
            && k.copy == copy && k.valid && k.front.queue == [] && k.front.accepted == [copy]
            && |k.front.pump.log| == 1 && Concerns(k.front.pump.log[0], copy.prompt)
            && k.front.pump.log[0].rendered && k.front.pump.log[0].at == 0
            && k.front.pump.guard == ReplayGuard.Guard(map[copy.prompt := 0], TERMINAL_TTL, 0)
  {
    FirstPostArrives(copy);
    assert [Issue, Arrive(0, OPEN_GATE)] + [Dispatch(bot)] == FirstPost(bot);
    OneMore(AtRest(copy), [Issue, Arrive(0, OPEN_GATE)], Dispatch(bot));
  }

  lemma OneRendered(log: seq<Entry>, prompt: string)
    requires |log| == 1
    ensures Renders(log, prompt) == if Concerns(log[0], prompt) && log[0].rendered then 1 else 0
  {
    assert Renders(log[..0], prompt) == 0;
  }

  /** The reply to an accepted POST is late, the process is told to stop, and the emission ends with an error
      although the terminal was rendered. */
  lemma ErrorMayStillBeShown(copy: Control, bot: Bot) returns (moves: seq<Move>)
    requires copy.Terminal? && copy.prompt != ""
    ensures Begins(AtRest(copy), 0, []) && IsJourney(AtRest(copy), moves)
    ensures var k := End(AtRest(copy), moves);
            k.sender == TerminalSender.Done(false) && Renders(k.front.pump.log, copy.prompt) == 1
  {
    hide Advance;
    var j := AtRest(copy);
    FirstPostIsRendered(copy, bot);
    moves := FirstPost(bot);
    OneRendered(End(j, moves).front.pump.log, copy.prompt);
    OneMoreAlone(j, moves, Tick(5000));
    moves := moves + [Tick(5000)];
    OneMoreAlone(j, moves, Expire);
    moves := moves + [Expire];
    OneMoreAlone(j, moves, Shutdown);
    moves := moves + [Shutdown];
  }

  lemma Issued(k: Journey, attempt: nat, post: nat, end: int)
    requires k.sender == TerminalSender.Ready(attempt, post, end)
    ensures Advance(k, Issue) == k.(sender := TerminalSender.Awaiting(attempt, post, end),
                                    posts := k.posts + [Posted(k.now, None)])
  {
  }

  /** An attempt whose only POST is made at its very end. */
  lemma LateAttempt(j: Journey, moves: seq<Move>, attempt: nat) returns (moves': seq<Move>)
    requires IsJourney(j, moves)
    requires var k := End(j, moves);
             k.valid && 2 <= attempt
             && k.sender == TerminalSender.BackingOff(attempt, k.now + TerminalSender.Backoff(attempt))
    ensures IsJourney(j, moves')
    ensures var k, end := End(j, moves), End(j, moves).now + TerminalSender.Backoff(attempt) + 5000;
            End(j, moves') == k.(now := end, sender := TerminalSender.Awaiting(attempt, 0, end),
                                 posts := k.posts + [Posted(end, None)])
  {
    hide Advance;
    moves' := moves;
    OneMoreAlone(j, moves', Tick(TerminalSender.Backoff(attempt)));
    moves' := moves' + [Tick(TerminalSender.Backoff(attempt))];
    OneMoreAlone(j, moves', Wake);
    moves' := moves' + [Wake];
    OneMoreAlone(j, moves', Tick(5000));
    moves' := moves' + [Tick(5000)];
    OneMore(j, moves', Issue);
    Issued(End(j, moves'), attempt, 0, End(j, moves').now);
    moves' := moves' + [Issue];
  }

  lemma LateAttemptFails(j: Journey, moves: seq<Move>, attempt: nat) returns (moves': seq<Move>)
    requires IsJourney(j, moves)
    requires var k := End(j, moves);
             k.valid && 2 <= attempt < 4
             && k.sender == TerminalSender.BackingOff(attempt, k.now + TerminalSender.Backoff(attempt))
    ensures IsJourney(j, moves')
    ensures var k, end := End(j, moves), End(j, moves).now + TerminalSender.Backoff(attempt) + 5000;
            End(j, moves') == k.(now := end, posts := k.posts + [Posted(end, None)],
                                 sender := TerminalSender.BackingOff(attempt + 1,
                                                                     end + TerminalSender.Backoff(attempt + 1)))
  {
    hide Advance;
    moves' := LateAttempt(j, moves, attempt);
    OneMoreAlone(j, moves', Expire);
    moves' := moves' + [Expire];
  }

  /** The last POST the emission can make, 27 seconds in. */
  lemma LastPossiblePost(copy: Control, bot: Bot) returns (moves: seq<Move>)
    requires copy.Terminal? && copy.prompt != ""
    ensures IsJourney(AtRest(copy), moves)
    ensures var first, k := End(AtRest(copy), FirstPost(bot)), End(AtRest(copy), moves);
            && k == first.(now := 27000, posts := k.posts, sender := TerminalSender.Awaiting(4, 0, 27000))
            && |k.posts| == 4 && k.posts[0] == Posted(0, Some(202)) && k.posts[3] == Posted(27000, None)
  {
    hide Advance;
    var j := AtRest(copy);
    FirstPostIsRendered(copy, bot);
    moves := FirstPost(bot);
    OneMoreAlone(j, moves, Tick(5000));
    moves := moves + [Tick(5000)];
    OneMoreAlone(j, moves, Expire);
    moves := moves + [Expire];
    moves := LateAttemptFails(j, moves, 2);
    moves := LateAttemptFails(j, moves, 3);
    moves := LateAttempt(j, moves, 4);
  }

  /** It is accepted, and the emission gives up on it. */
  lemma LastPostIsAccepted(copy: Control, bot: Bot) returns (moves: seq<Move>)
    requires copy.Terminal? && copy.prompt != ""
    ensures IsJourney(AtRest(copy), moves)
    ensures var first, k := End(AtRest(copy), FirstPost(bot)), End(AtRest(copy), moves);
            && k.now == 27000 && k.sender == TerminalSender.Done(false) && k.copy == copy
            && |k.posts| == 4 && k.posts[0] == Posted(0, Some(202)) && k.posts[3] == Posted(27000, Some(202))
            && k.origins == [Some(0), Some(3)] && k.front.queue == [copy] && k.front.pump == first.front.pump
  {
    FirstPostIsRendered(copy, bot);
    moves := LastPossiblePost(copy, bot);
    OneMore(AtRest(copy), moves, Arrive(3, OPEN_GATE));
    moves := moves + [Arrive(3, OPEN_GATE)];
    OneMoreAlone(AtRest(copy), moves, Expire);
    moves := moves + [Expire];
  }

  /** A copy that comes once the guard has forgotten the first one is rendered as well. */
  lemma DueCopyIsRendered(k: Journey, bot: Bot)
    requires k.copy.Terminal? && k.copy.prompt != "" && k.front.queue == [k.copy] && k.now == 600001
    requires k.front.pump.guard == ReplayGuard.Guard(map[k.copy.prompt := 0], TERMINAL_TTL, 0)
    requires |k.front.pump.log| == 1
    requires Concerns(k.front.pump.log[0], k.copy.prompt) && k.front.pump.log[0].rendered
    ensures var t := Advance(k, Dispatch(bot));
            && t.posts == k.posts && t.origins == k.origins
            && |t.front.pump.log| == 2 && t.front.pump.log[0] == k.front.pump.log[0]
            && t.front.pump.log[1].at == 600001 && Renders(t.front.pump.log, k.copy.prompt) == 2
  {
    var log := k.front.pump.log;
    OneRendered(log, k.copy.prompt);
    LogSnoc(log, EntryOf(k.front.pump, k.copy, 600001, bot), k.copy.prompt);
    hide Calls, Renders, First, WithinTtl;
  }

  /** The emission's first copy is rendered at once, its last one 573.001 seconds after it was posted. */
  lemma RenderedTwice(copy: Control, bot: Bot) returns (moves: seq<Move>)
    requires copy.Terminal? && copy.prompt != ""
    ensures Begins(AtRest(copy), 0, []) && IsJourney(AtRest(copy), moves)
    ensures OnSchedule(End(AtRest(copy), moves), TERMINAL_TTL - 27000 + 1)
    ensures Renders(End(AtRest(copy), moves).front.pump.log, copy.prompt) == 2
  {
    hide Advance, Renders;
    var j := AtRest(copy);
    FirstPostIsRendered(copy, bot);
    moves := LastPostIsAccepted(copy, bot);
    OneMoreAlone(j, moves, Tick(573001));
    moves := moves + [Tick(573001)];
    DueCopyIsRendered(End(j, moves), bot);
    OneMore(j, moves, Dispatch(bot));
    moves := moves + [Dispatch(bot)];
  }

  /** No journey whose copies are dispatched within `delay` shows its terminal twice. */
  ghost predicate SafeDelay(delay: nat) {
    forall j, moves, clock, past ::
      Begins(j, clock, past) && IsJourney(j, moves) && OnSchedule(End(j, moves), delay) ==>
        Renders(End(j, moves).front.pump.log, j.copy.prompt) <= 1
  }

  /** The bound is exact: 573 seconds, which is the guard's TTL less the span of an emission. */
  lemma NeverTwiceExactlyWithin(delay: nat)
    ensures SafeDelay(delay) <==> delay <= TERMINAL_TTL - 27000
  {
    if delay <= TERMINAL_TTL - 27000 {
      forall j, moves, clock, past | Begins(j, clock, past) && IsJourney(j, moves) && OnSchedule(End(j, moves), delay)
        ensures Renders(End(j, moves).front.pump.log, j.copy.prompt) <= 1
      {
        NeverTwice(j, moves, clock, past, delay);
      }
    } else {
      var copy := Terminal("p", Notice);
      var moves := RenderedTwice(copy, Bot(true, Updated, Sent, true));
      assert OnSchedule(End(AtRest(copy), moves), delay);
      assert Begins(AtRest(copy), 0, []);
    }
  }
}
