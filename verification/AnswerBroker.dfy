/**
Routing card answers to the goroutine that asked (internal/miniagent/answer.go,
internal/miniagent/picker.go): one-shot channels of capacity one in a locked map. Deliver takes a
channel out under the lock and sends outside it, so the two are separate steps here.
*/
module AnswerBroker {
  import opened Options
  import opened Runs

  /** What has become of a registration's channel. */
  datatype Fate = Waiting(id: string) | Taken(answer: string) | Answered | Shut | Cancelled

  datatype Channel = Channel(buffer: Option<string>, closed: bool)

  /** `fates` names every registration that succeeded; `bad` counts sends on a closed channel and
      second closes, `dropped` the answers the full-buffer branch let fall. */
  datatype Broker = Broker(pending: map<string, nat>, chans: map<nat, Channel>, fates: map<nat, Fate>,
                           bad: nat, dropped: nat)

  datatype Step =
    | Register(id: string)
    | Cancel(id: string)
    | Take(id: string, answer: string)
    | Send(ch: nat)
    | Receive(ch: nat)
    | Drain

  function Begin(): Broker {
    Broker(map[], map[], map[], 0, 0)
  }

  function Registered(s: Broker, id: string): Broker {
    if id in s.pending then s
    else
      var ch := |s.fates|;
      s.(pending := s.pending[id := ch], chans := s.chans[ch := Channel(None, false)],
         fates := s.fates[ch := Waiting(id)])
  }

  function Withdrawn(s: Broker, id: string, fate: Fate): Broker {
    if id !in s.pending then s
    else s.(pending := s.pending - {id}, fates := s.fates[s.pending[id] := fate])
  }

  /** The non-blocking send of an answer in hand. */
  function SentOn(s: Broker, ch: nat, answer: string): Broker {
    if ch !in s.chans then s
    else
      var c := s.chans[ch];
      if c.closed then s.(bad := s.bad + 1)
      else if c.buffer.None? then
        s.(chans := s.chans[ch := c.(buffer := Some(answer))], fates := s.fates[ch := Answered])
      else s.(dropped := s.dropped + 1, fates := s.fates[ch := Answered])
  }

  function Received(s: Broker, ch: nat): Broker {
    if ch in s.chans then s.(chans := s.chans[ch := s.chans[ch].(buffer := None)]) else s
  }

  function ClosedOne(s: Broker, ch: nat): Broker {
    if ch !in s.chans then s
    else if s.chans[ch].closed then s.(bad := s.bad + 1)
    else s.(chans := s.chans[ch := s.chans[ch].(closed := true)], fates := s.fates[ch := Shut])
  }

  /** Every pending channel closed, in whatever order the map gives them. */
  function Drained(s: Broker): Broker {
    s.(pending := map[],
       chans := map c | c in s.chans :: if c in s.pending.Values then s.chans[c].(closed := true) else s.chans[c],
       fates := map c | c in s.fates :: if c in s.pending.Values then Shut else s.fates[c])
  }

  // ---------------------------------------------------------------- the broker as a program

  /** A channel's state is the one its fate calls for. */
  predicate Fits(s: Broker, ch: nat) {
    ch in s.fates ==>
      && ch in s.chans
      && (s.chans[ch].closed <==> s.fates[ch] == Shut)
      && (s.fates[ch] != Answered ==> s.chans[ch].buffer == None)
      && (s.fates[ch].Waiting? ==> s.fates[ch].id in s.pending && s.pending[s.fates[ch].id] == ch)
  }

  /** A slot holds the channel of a registration still waiting under that id. */
  predicate Slotted(s: Broker, id: string) {
    id in s.pending ==> s.pending[id] in s.fates && s.fates[s.pending[id]] == Waiting(id)
  }

  predicate Valid(s: Broker) {
    && s.bad == 0 && s.dropped == 0
    && s.chans.Keys == s.fates.Keys
    && (forall ch :: ch in s.fates ==> ch < |s.fates|)
    && (forall ch :: ch in s.fates ==> Fits(s, ch))
    && (forall id :: id in s.pending ==> Slotted(s, id))
  }

  lemma Resized(m: map<nat, Fate>, k: nat, v: Fate)
    ensures |m[k := v]| == if k in m then |m| else |m| + 1
  {
    assert m[k := v].Keys == m.Keys + {k};
  }

  lemma RegisterKeepsValid(s: Broker, id: string)
    requires Valid(s)
    ensures Valid(Registered(s, id))
    ensures id !in s.pending ==> |Registered(s, id).fates| == |s.fates| + 1
  {
    if id !in s.pending {
      var t, ch := Registered(s, id), |s.fates|;
      assert ch !in s.fates;
      Resized(s.fates, ch, Waiting(id));
      forall c | c in t.fates ensures Fits(t, c) {
        assert Fits(s, c);
      }
      forall i | i in t.pending ensures Slotted(t, i) {
        assert Slotted(s, i);
      }
    }
  }

  lemma WithdrawKeepsValid(s: Broker, id: string, fate: Fate)
    requires Valid(s) && (fate.Taken? || fate.Cancelled?)
    ensures Valid(Withdrawn(s, id, fate)) && |Withdrawn(s, id, fate).fates| == |s.fates|
    ensures id in s.pending ==> s.chans[s.pending[id]] == Channel(None, false)
  {
    if id in s.pending {
      var t := Withdrawn(s, id, fate);
      assert Slotted(s, id) && Fits(s, s.pending[id]);
      Resized(s.fates, s.pending[id], fate);
      forall c | c in t.fates ensures Fits(t, c) {
        assert Fits(s, c);
      }
      forall i | i in t.pending ensures Slotted(t, i) {
        assert Slotted(s, i);
      }
    }
  }

  /** An answer in hand is always put in the buffer: the channel is open and empty. */
  lemma SendKeepsValid(s: Broker, ch: nat, answer: string)
    requires Valid(s) && ch in s.fates && s.fates[ch] == Taken(answer)
    ensures Valid(SentOn(s, ch, answer)) && |SentOn(s, ch, answer).fates| == |s.fates|
    ensures SentOn(s, ch, answer).chans[ch] == Channel(Some(answer), false)
  {
    var t := SentOn(s, ch, answer);
    assert Fits(s, ch);
    Resized(s.fates, ch, Answered);
    forall c | c in t.fates ensures Fits(t, c) {
      assert Fits(s, c);
    }
    forall i | i in t.pending ensures Slotted(t, i) {
      assert Slotted(s, i);
    }
  }

  /** One round of Drain's loop. */
  function DrainedOne(s: Broker, id: string): Broker
    requires id in s.pending
  {
    ClosedOne(s, s.pending[id]).(pending := s.pending - {id})
  }

  lemma CloseOneKeepsValid(s: Broker, id: string)
    requires Valid(s) && id in s.pending
    ensures s.pending[id] in s.chans && !s.chans[s.pending[id]].closed
    ensures Valid(DrainedOne(s, id)) && |DrainedOne(s, id).fates| == |s.fates|
  {
    var t, ch := DrainedOne(s, id), s.pending[id];
    assert Slotted(s, id) && Fits(s, ch);
    Resized(s.fates, ch, Shut);
    forall c | c in t.fates ensures Fits(t, c) {
      assert Fits(s, c);
    }
    forall i | i in t.pending ensures Slotted(t, i) {
      assert Slotted(s, i);
    }
  }

  lemma CloseOneDrains(s: Broker, id: string)
    requires id in s.pending && s.pending[id] in s.chans && s.pending[id] in s.fates
    requires !s.chans[s.pending[id]].closed
    ensures Drained(DrainedOne(s, id)) == Drained(s)
  {
    var t, ch := DrainedOne(s, id), s.pending[id];
    forall c | c in s.pending.Values ensures c in t.pending.Values + {ch} {
      var k :| k in s.pending && s.pending[k] == c;
      assert k != id ==> k in t.pending;
    }
    assert s.pending.Values == t.pending.Values + {ch};
    assert Drained(t).chans == Drained(s).chans;
    assert Drained(t).fates == Drained(s).fates;
  }

  lemma DrainRound(s: Broker, id: string)
    requires Valid(s) && id in s.pending
    ensures s.pending[id] in s.chans
    ensures Valid(DrainedOne(s, id)) && |DrainedOne(s, id).fates| == |s.fates|
    ensures Drained(DrainedOne(s, id)) == Drained(s)
  {
    CloseOneKeepsValid(s, id);
    CloseOneDrains(s, id);
  }

  lemma DrainedMeans(s: Broker)
    ensures var t := Drained(s);
            && t.pending == map[] && t.chans.Keys == s.chans.Keys
            && forall c :: c in s.chans ==>
                 t.chans[c] == if c in s.pending.Values then s.chans[c].(closed := true) else s.chans[c]
  {
  }

  lemma NothingToDrain(s: Broker)
    requires s.pending == map[]
    ensures Drained(s) == s
  {
    assert Drained(s).chans == s.chans;
    assert Drained(s).fates == s.fates;
  }

  class Routes {
    var pending: map<string, nat>
    var chans: map<nat, Channel>
    ghost var fates: map<nat, Fate>
    ghost var bad: nat
    ghost var dropped: nat
    var issued: nat

    ghost function View(): Broker
      reads this
    {
      Broker(pending, chans, fates, bad, dropped)
    }

    ghost predicate Consistent()
      reads this
    {
      issued == |fates| && Valid(View())
    }

    constructor ()
      ensures Consistent() && View() == Begin()
    {
      pending, chans, fates, bad, dropped, issued := map[], map[], map[], 0, 0, 0;
    }

    method Register(id: string) returns (ch: nat, ok: bool)
      requires Consistent()
      modifies this
      ensures Consistent() && View() == Registered(old(View()), id)
      ensures ok == (id !in old(pending)) && (ok ==> pending[id] == ch)
      ensures pending == (if ok then old(pending)[id := ch] else old(pending)) && (ok ==> ch !in old(chans))
      ensures chans == if ok then old(chans)[ch := Channel(None, false)] else old(chans)
    {
      RegisterKeepsValid(View(), id);
      ch := issued;
      if id in pending {
        return ch, false;
      }
      pending := pending[id := ch];
      chans := chans[ch := Channel(None, false)];
      fates := fates[ch := Waiting(id)];
      issued := issued + 1;
      return ch, true;
    }

    method Cancel(id: string)
      requires Consistent()
      modifies this
      ensures Consistent() && View() == Withdrawn(old(View()), id, Cancelled)
      ensures pending == old(pending) - {id} && chans == old(chans)
    {
      WithdrawKeepsValid(View(), id, Cancelled);
      if id in pending {
        fates := fates[pending[id] := Cancelled];
      }
      pending := pending - {id};
    }

    method Take(id: string, answer: string) returns (ch: nat, ok: bool)
      requires Consistent()
      modifies this
      ensures Consistent() && View() == Withdrawn(old(View()), id, Taken(answer))
      ensures ok == (id in old(pending)) && (ok ==> ch == old(pending)[id])
      ensures pending == old(pending) - {id} && chans == old(chans)
    {
      WithdrawKeepsValid(View(), id, Taken(answer));
      ch, ok := 0, id in pending;
      if ok {
        ch := pending[id];
        fates := fates[ch := Taken(answer)];
        pending := pending - {id};
      }
    }

    /** The select with a default branch. */
    method SendOn(ch: nat, answer: string)
      requires ch in chans
      modifies this`chans, this`fates, this`bad, this`dropped
      ensures View() == SentOn(old(View()), ch, answer)
      ensures chans == if old(chans)[ch] == Channel(None, false) then old(chans)[ch := Channel(Some(answer), false)]
                       else old(chans)
    {
      if chans[ch].closed {
        bad := bad + 1;
      } else if chans[ch].buffer.None? {
        chans := chans[ch := chans[ch].(buffer := Some(answer))];
        fates := fates[ch := Answered];
      } else {
        dropped := dropped + 1;
        fates := fates[ch := Answered];
      }
    }

    /** Deliver without interference: the answer is in the waiter's channel. */
    method Deliver(id: string, answer: string) returns (ok: bool)
      requires Consistent()
      modifies this
      ensures Consistent() && ok == (id in old(pending))
      ensures ok ==> old(pending)[id] in chans && chans[old(pending)[id]] == Channel(Some(answer), false)
      ensures !ok ==> View() == old(View())
      ensures pending == old(pending) - {id}
    {
      var ch;
      ch, ok := Take(id, answer);
      if !ok {
        return;
      }
      SendKeepsValid(View(), ch, answer);
      SendOn(ch, answer);
    }

    /** One round of Drain's loop: close the slot's channel, forget the slot. */
    method DrainSlot(id: string)
      requires id in pending && pending[id] in chans
      modifies this`pending, this`chans, this`fates, this`bad
      ensures View() == DrainedOne(old(View()), id)
      ensures |pending| < |old(pending)|
    {
      var ch := pending[id];
      if chans[ch].closed {
        bad := bad + 1;
      } else {
        chans := chans[ch := chans[ch].(closed := true)];
        fates := fates[ch := Shut];
      }
      assert pending.Keys == (pending - {id}).Keys + {id};
      pending := pending - {id};
    }

    method Drain()
      requires Consistent()
      modifies this
      ensures Consistent() && View() == Drained(old(View())) && pending == map[]
      ensures chans.Keys == old(chans).Keys
      ensures forall c :: c in old(chans) ==>
                chans[c] == if c in old(pending).Values then old(chans)[c].(closed := true) else old(chans)[c]
    {
      ghost var was := View();
      DrainedMeans(was);
      hide Drained, DrainedOne, Valid, Fits, Slotted;
      while pending != map[]
        invariant Consistent() && Drained(View()) == Drained(was)
        decreases |pending|
      {
        var id :| id in pending;
        DrainRound(View(), id);
        DrainSlot(id);
      }
      NothingToDrain(View());
    }
  }

  // ---------------------------------------------------------------- every interleaving

  predicate IsTaken(s: Broker, ch: nat) {
    ch in s.fates && s.fates[ch].Taken?
  }

  function Next(s: Broker, e: Step): Broker {
    match e
    case Register(id) => Registered(s, id)
    case Cancel(id) => Withdrawn(s, id, Cancelled)
    case Take(id, answer) => Withdrawn(s, id, Taken(answer))
    case Send(ch) => if IsTaken(s, ch) then SentOn(s, ch, s.fates[ch].answer) else s
    case Receive(ch) => Received(s, ch)
    case Drain => Drained(s)
  }

  function After(steps: seq<Step>): Broker {
    Fold(Next, Begin(), steps)
  }

  lemma ReceiveKeepsValid(s: Broker, ch: nat)
    requires Valid(s)
    ensures Valid(Received(s, ch))
  {
    var t := Received(s, ch);
    assert t.chans.Keys == s.chans.Keys;
    forall c | c in t.fates ensures Fits(t, c) {
      assert Fits(s, c);
    }
    forall i | i in t.pending ensures Slotted(t, i) {
      assert Slotted(s, i);
    }
  }

  lemma DrainKeepsValid(s: Broker)
    requires Valid(s)
    ensures Valid(Drained(s)) && |Drained(s).fates| == |s.fates|
  {
    var t := Drained(s);
    assert t.fates.Keys == s.fates.Keys;
    assert |t.fates| == |s.fates|;
    forall c | c in t.fates ensures Fits(t, c) {
      assert Fits(s, c);
      if c in s.pending.Values {
        var id :| id in s.pending && s.pending[id] == c;
        assert Slotted(s, id);
      }
    }
  }

  lemma StepKeepsValid(s: Broker, e: Step)
    requires Valid(s)
    ensures Valid(Next(s, e))
  {
    match e
    case Register(id) => RegisterKeepsValid(s, id);
    case Cancel(id) => WithdrawKeepsValid(s, id, Cancelled);
    case Take(id, answer) => WithdrawKeepsValid(s, id, Taken(answer));
    case Send(ch) =>
      if IsTaken(s, ch) {
        SendKeepsValid(s, ch, s.fates[ch].answer);
      }
    case Receive(ch) => ReceiveKeepsValid(s, ch);
    case Drain => DrainKeepsValid(s);
  }

  /** Main result: in every interleaving no channel is sent on after it is closed or closed twice, and
      the branch of Deliver that drops an answer is never taken. */
  lemma {:induction false} NothingMisused(steps: seq<Step>)
    ensures Valid(After(steps))
    ensures After(steps).bad == 0 && After(steps).dropped == 0
  {
    if steps != [] {
      NothingMisused(steps[..|steps| - 1]);
      StepKeepsValid(After(steps[..|steps| - 1]), steps[|steps| - 1]);
    }
  }

  /** Where a registration may go from each fate: an answer in hand can only be sent, and what is
      answered, shut or cancelled stays so. */
  predicate Follows(before: Fate, after: Fate) {
    match before
    case Waiting(_) => after == before || after.Taken? || after == Shut || after == Cancelled
    case Taken(_) => after == before || after == Answered
    case _ => after == before
  }

  lemma FateFollows(s: Broker, e: Step, ch: nat)
    requires Valid(s) && ch in s.fates
    ensures ch in Next(s, e).fates && Follows(s.fates[ch], Next(s, e).fates[ch])
  {
    assert Fits(s, ch);
    match e
    case Register(_) => assert |s.fates| !in s.fates;
    case Cancel(id) => assert id in s.pending ==> Slotted(s, id);
    case Take(id, _) => assert id in s.pending ==> Slotted(s, id);
    case Drain =>
      if ch in s.pending.Values {
        var id :| id in s.pending && s.pending[id] == ch;
        assert Slotted(s, id);
      }
    case _ =>
  }

  predicate Settled(f: Fate) {
    f == Answered || f == Shut || f == Cancelled
  }

  lemma {:induction false} SettledFrom(s: Broker, ch: nat, steps: seq<Step>)
    requires Valid(s) && ch in s.fates && Settled(s.fates[ch])
    ensures var t := Fold(Next, s, steps); Valid(t) && ch in t.fates && t.fates[ch] == s.fates[ch]
  {
    if steps != [] {
      var n := |steps| - 1;
      SettledFrom(s, ch, steps[..n]);
      StepKeepsValid(Fold(Next, s, steps[..n]), steps[n]);
      FateFollows(Fold(Next, s, steps[..n]), steps[n], ch);
    }
  }

  /** Each registration gets at most one of an answer, a close and a cancellation. */
  lemma SettledForEver(past: seq<Step>, ch: nat, steps: seq<Step>)
    requires ch in After(past).fates && Settled(After(past).fates[ch])
    ensures ch in After(past + steps).fates && After(past + steps).fates[ch] == After(past).fates[ch]
  {
    NothingMisused(past);
    SettledFrom(After(past), ch, steps);
    FoldConcat(Next, (_, _) => true, Begin(), past, steps);
  }

  lemma OnlySendAnswers(s: Broker, e: Step, ch: nat)
    requires Valid(s) && IsTaken(s, ch) && e != Send(ch)
    ensures ch in Next(s, e).fates && Next(s, e).fates[ch] == s.fates[ch]
  {
    assert Fits(s, ch);
    match e
    case Register(_) => assert |s.fates| !in s.fates;
    case Cancel(id) => assert id in s.pending ==> Slotted(s, id);
    case Take(id, _) => assert id in s.pending ==> Slotted(s, id);
    case Drain =>
      forall id | id in s.pending ensures s.pending[id] != ch {
        assert Slotted(s, id);
      }
    case _ =>
  }

  lemma {:induction false} StaysTaken(s: Broker, ch: nat, steps: seq<Step>)
    requires Valid(s) && IsTaken(s, ch) && Send(ch) !in steps
    ensures var t := Fold(Next, s, steps); Valid(t) && ch in t.fates && t.fates[ch] == s.fates[ch]
  {
    if steps != [] {
      var n := |steps| - 1;
      StaysTaken(s, ch, steps[..n]);
      StepKeepsValid(Fold(Next, s, steps[..n]), steps[n]);
      OnlySendAnswers(Fold(Next, s, steps[..n]), steps[n], ch);
    }
  }

  /** An answer taken for a registration reaches its channel whatever happens in between. */
  lemma TakenIsDelivered(past: seq<Step>, ch: nat, steps: seq<Step>)
    requires IsTaken(After(past), ch) && Send(ch) !in steps
    ensures var s := After((past + steps) + [Send(ch)]);
            && ch in s.chans && s.chans[ch] == Channel(Some(After(past).fates[ch].answer), false)
            && ch in s.fates && s.fates[ch] == Answered
  {
    NothingMisused(past);
    StaysTaken(After(past), ch, steps);
    FoldConcat(Next, (_, _) => true, Begin(), past, steps);
    SendKeepsValid(After(past + steps), ch, After(past).fates[ch].answer);
    assert ((past + steps) + [Send(ch)])[..|past + steps|] == past + steps;
  }
}
