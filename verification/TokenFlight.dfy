/**
The access token's single flight (internal/lark/auth.go): a caller that misses the cache fetches,
callers that arrive meanwhile wait on its gate. Each locked section is one step; the fetch itself runs
without the lock. Gates are numbered in the order they are made; times are seconds.
*/
module TokenFlight {
  import opened Options
  import opened Runs

  const REFRESH_LEAD := 300

  /** What a caller of Token, or a fetch, ends with. */
  datatype Answer = Token(token: string) | Failed(error: string)

  /** What the token endpoint sends back. */
  datatype Response = Unreachable | Reply(httpOk: bool, code: int, token: string, expire: int)

  /** fetch: only a success code with a token is a success. */
  function Fetched(r: Response): (a: Answer)
    ensures a.Token? <==> r.Reply? && r.httpOk && r.code == 0 && r.token != ""
    ensures a.Token? ==> a.token == r.token
  {
    match r
    case Unreachable => Failed("fetch")
    case Reply(httpOk, code, token, _) =>
      if !httpOk then Failed("http") else if code != 0 || token == "" then Failed("api") else Token(token)
  }

  datatype Cache = Cache(token: string, expireAt: int)

  /** The manager's fields; `result` is (inflightTok, inflightErr), both empty before the first flight. */
  datatype Manager = Manager(cache: Cache, inflight: Option<nat>, result: Option<Answer>)

  predicate Usable(c: Cache, now: int) {
    c.token != "" && now + REFRESH_LEAD < c.expireAt
  }

  datatype Entered = Served(token: string) | Joins(gate: nat) | Leads

  /** The first locked section of Token. */
  function Enter(m: Manager, now: int): Entered {
    if Usable(m.cache, now) then Served(m.cache.token)
    else match m.inflight
      case Some(gate) => Joins(gate)
      case None => Leads
  }

  /** The leader's second locked section. */
  function Landed(m: Manager, a: Answer, expireAt: int): Manager {
    Manager(if a.Token? then Cache(a.token, expireAt) else m.cache, None, Some(a))
  }

  class TokenManager {
    var cached: string
    var expireAt: int
    var inflight: Option<nat>
    var inflightTok: string
    var inflightErr: Option<string>
    var gates: nat
    ghost var closed: seq<nat>

    /** How the two result fields read together. */
    ghost function Result(): Option<Answer>
      reads this
    {
      if inflightErr.Some? then Some(Failed(inflightErr.value))
      else if inflightTok != "" then Some(Token(inflightTok))
      else None
    }

    ghost function View(): Manager
      reads this
    {
      Manager(Cache(cached, expireAt), inflight, Result())
    }

    constructor ()
      ensures View() == Manager(Cache("", 0), None, None) && gates == 0 && closed == []
    {
      cached, expireAt, inflight, inflightTok, inflightErr, gates, closed := "", 0, None, "", None, 0, [];
    }

    method EnterToken(now: int) returns (e: Entered)
      modifies this`inflight, this`gates
      ensures e == Enter(old(View()), now)
      ensures e.Served? <==> cached != "" && expireAt > now + 300
      ensures e.Served? ==> e.token == cached
      ensures !e.Served? ==> e == if old(inflight).Some? then Joins(old(inflight).value) else Leads
      ensures inflight == if e.Leads? then Some(old(gates)) else old(inflight)
      ensures View() == if e.Leads? then old(View()).(inflight := Some(old(gates))) else old(View())
      ensures gates == old(gates) + if e.Leads? then 1 else 0
    {
      if cached != "" && now + REFRESH_LEAD < expireAt {
        return Served(cached);
      }
      if inflight.Some? {
        return Joins(inflight.value);
      }
      inflight := Some(gates);
      gates := gates + 1;
      return Leads;
    }

    /** What a leader does with its fetch; the gate it opened is closed exactly once. */
    method Land(r: Response, now: int) returns (a: Answer)
      requires inflight.Some?
      modifies this
      ensures a == Fetched(r) && View() == Landed(old(View()), a, now + if r.Reply? then r.expire else 0)
      ensures closed == old(closed) + [old(inflight).value] && gates == old(gates) && inflight == None
      ensures a.Token? ==> cached == a.token && r.Reply? && expireAt == now + r.expire
      ensures a.Token? ==> inflightTok == a.token && inflightErr == None
      ensures a.Failed? ==> cached == old(cached) && expireAt == old(expireAt) && inflightErr == Some(a.error)
    {
      a := Fetched(r);
      inflightTok := "";
      inflightErr := None;
      closed := closed + [inflight.value];
      inflight := None;
      match a
      case Failed(e) => inflightErr := Some(e);
      case Token(token) =>
        cached := token;
        expireAt := now + r.expire;
        inflightTok := cached;
    }

    /** What a follower reads once its gate is closed. */
    method ReadResult() returns (a: Answer)
      ensures Result().Some? ==> a == Result().value
      ensures Result().None? ==> a == Token("")
    {
      if inflightErr.Some? {
        return Failed(inflightErr.value);
      }
      return Token(inflightTok);
    }
  }

  // ---------------------------------------------------------------- every interleaving

  datatype Caller = Fetching(gate: nat) | WaitingOn(gate: nat) | Returned(answer: Answer, from: Option<nat>)

  datatype Landing = Landing(gate: nat, leader: nat, answer: Answer, expireAt: int)

  /** `callers` by name; `landings` is every completed flight in order; `made` counts gates. */
  datatype World = World(m: Manager, callers: map<nat, Caller>, landings: seq<Landing>, made: nat)

  datatype Step =
    | Call(caller: nat, now: int)
    | FetchDone(caller: nat, response: Response, now: int)
    | Wake(caller: nat)
    | GiveUp(caller: nat)

  function Begin(): World {
    World(Manager(Cache("", 0), None, None), map[], [], 0)
  }

  predicate IsClosed(landings: seq<Landing>, gate: nat) {
    exists i :: 0 <= i < |landings| && landings[i].gate == gate
  }

  function Called(w: World, c: nat, now: int): World {
    match Enter(w.m, now)
    case Served(token) => w.(callers := w.callers[c := Returned(Token(token), None)])
    case Joins(gate) => w.(callers := w.callers[c := WaitingOn(gate)])
    case Leads =>
      World(w.m.(inflight := Some(w.made)), w.callers[c := Fetching(w.made)], w.landings, w.made + 1)
  }

  function FlightLanded(w: World, c: nat, r: Response, now: int): World
    requires c in w.callers && w.callers[c].Fetching?
  {
    var a, gate := Fetched(r), w.callers[c].gate;
    var expireAt := now + if r.Reply? then r.expire else 0;
    World(Landed(w.m, a, expireAt),
          w.callers[c := Returned(a, Some(gate))],
          w.landings + [Landing(gate, c, a, expireAt)],
          w.made)
  }

  /** A woken follower reads whatever flight landed last. */
  function Woken(w: World, c: nat): World
    requires c in w.callers
  {
    var a := if w.m.result.Some? then w.m.result.value else Token("");
    w.(callers := w.callers[c := Returned(a, if w.landings == [] then None
                                             else Some(w.landings[|w.landings| - 1].gate))])
  }

  predicate Waits(w: World, c: nat) {
    c in w.callers && w.callers[c].WaitingOn?
  }

  function Next(w: World, e: Step): World {
    match e
    case Call(c, now) => if c in w.callers then w else Called(w, c, now)
    case FetchDone(c, r, now) =>
      if c in w.callers && w.callers[c].Fetching? then FlightLanded(w, c, r, now) else w
    case Wake(c) => if Waits(w, c) && IsClosed(w.landings, w.callers[c].gate) then Woken(w, c) else w
    case GiveUp(c) => if Waits(w, c) then w.(callers := w.callers[c := Returned(Failed("context"), None)]) else w
  }

  function After(steps: seq<Step>): World {
    Fold(Next, Begin(), steps)
  }

  // ---------------------------------------------------------------- one flight at a time

  /** A caller that fetches is the leader of the one flight in the air. */
  predicate LeaderIs(w: World, c: nat) {
    c in w.callers && w.callers[c].Fetching? ==> w.m.inflight == Some(w.callers[c].gate)
  }

  predicate OneLeader(w: World) {
    && (forall c :: c in w.callers ==> LeaderIs(w, c))
    && (forall c, d :: c in w.callers && d in w.callers && w.callers[c].Fetching? && w.callers[d].Fetching? ==> c == d)
    && (w.m.inflight.Some? ==>
          w.m.inflight.value < w.made && exists c :: c in w.callers && w.callers[c] == Fetching(w.m.inflight.value))
  }

  lemma CallKeepsOneLeader(w: World, c: nat, now: int)
    requires OneLeader(w) && c !in w.callers
    ensures OneLeader(Called(w, c, now))
  {
    var t := Called(w, c, now);
    forall d | d in t.callers ensures LeaderIs(t, d) {
      if d != c {
        assert LeaderIs(w, d);
      }
    }
    if Enter(w.m, now).Leads? {
      assert t.callers[c] == Fetching(w.made);
    } else if w.m.inflight.Some? {
      var l :| l in w.callers && w.callers[l] == Fetching(w.m.inflight.value);
      assert t.callers[l] == Fetching(t.m.inflight.value);
    }
  }

  lemma SettleKeepsOneLeader(w: World, c: nat, a: Answer, from: Option<nat>)
    requires OneLeader(w) && Waits(w, c)
    ensures OneLeader(w.(callers := w.callers[c := Returned(a, from)]))
  {
    var t := w.(callers := w.callers[c := Returned(a, from)]);
    forall d | d in t.callers ensures LeaderIs(t, d) {
      assert LeaderIs(w, d);
    }
    if w.m.inflight.Some? {
      var l :| l in w.callers && w.callers[l] == Fetching(w.m.inflight.value);
      assert t.callers[l] == Fetching(w.m.inflight.value);
    }
  }

  lemma LandKeepsOneLeader(w: World, c: nat, r: Response, now: int)
    requires OneLeader(w) && c in w.callers && w.callers[c].Fetching?
    ensures OneLeader(FlightLanded(w, c, r, now))
  {
    var t := FlightLanded(w, c, r, now);
    forall d | d in t.callers ensures LeaderIs(t, d) {
      assert LeaderIs(w, d);
    }
  }

  lemma StepKeepsOneLeader(w: World, e: Step)
    requires OneLeader(w)
    ensures OneLeader(Next(w, e))
  {
    match e
    case Call(c, now) =>
      if c !in w.callers {
        CallKeepsOneLeader(w, c, now);
      }
    case FetchDone(c, r, now) =>
      if c in w.callers && w.callers[c].Fetching? {
        LandKeepsOneLeader(w, c, r, now);
      }
    case Wake(c) =>
      if Waits(w, c) {
        SettleKeepsOneLeader(w, c, if w.m.result.Some? then w.m.result.value else Token(""),
                             if w.landings == [] then None else Some(w.landings[|w.landings| - 1].gate));
      }
    case GiveUp(c) =>
      if Waits(w, c) {
        SettleKeepsOneLeader(w, c, Failed("context"), None);
      }
  }

  // ---------------------------------------------------------------- the cached token

  /** The last flight that brought a token. */
  function LastSuccess(landings: seq<Landing>): Option<Landing> {
    if landings == [] then None
    else if landings[|landings| - 1].answer.Token? then Some(landings[|landings| - 1])
    else LastSuccess(landings[..|landings| - 1])
  }

  /** The cache is what the last successful flight left there. */
  predicate CacheIsLast(w: World) {
    && (forall i :: 0 <= i < |w.landings| ==> w.landings[i].answer != Token(""))
    && match LastSuccess(w.landings)
       case None => w.m.cache == Cache("", 0)
       case Some(l) => l.answer.Token? && l.answer.token != "" && w.m.cache == Cache(l.answer.token, l.expireAt)
  }

  lemma LandKeepsCache(w: World, c: nat, r: Response, now: int)
    requires CacheIsLast(w) && c in w.callers && w.callers[c].Fetching?
    ensures CacheIsLast(FlightLanded(w, c, r, now))
  {
    var t := FlightLanded(w, c, r, now);
    assert t.landings[..|w.landings|] == w.landings;
  }

  lemma {:induction false} CacheIsLastSuccess(steps: seq<Step>)
    ensures CacheIsLast(After(steps))
  {
    if steps != [] {
      var w, e := After(steps[..|steps| - 1]), steps[|steps| - 1];
      CacheIsLastSuccess(steps[..|steps| - 1]);
      if e.FetchDone? && e.caller in w.callers && w.callers[e.caller].Fetching? {
        LandKeepsCache(w, e.caller, e.response, e.now);
      }
    }
  }

  /** Main result: a caller is served without waiting if and only if the last flight that succeeded left a
      token with more than five minutes to live, and it is served that token. */
  lemma ServedExactlyWhenFresh(steps: seq<Step>, c: nat, now: int)
    requires c !in After(steps).callers
    ensures var w, t := After(steps), After(steps + [Call(c, now)]);
            var last := LastSuccess(w.landings);
            && c in t.callers
            && (t.callers[c].Returned? <==> last.Some? && last.value.expireAt - now > 300)
            && (t.callers[c].Returned? ==> t.callers[c].answer == last.value.answer)
  {
    CacheIsLastSuccess(steps);
    assert (steps + [Call(c, now)])[..|steps|] == steps;
  }

  // ---------------------------------------------------------------- gates and results

  /** Flights land one by one, in the order their gates were made; the fields hold the last result. */
  predicate Ordered(w: World) {
    && (forall i :: 0 <= i < |w.landings| ==> w.landings[i].gate == i)
    && w.made == |w.landings| + (if w.m.inflight.Some? then 1 else 0)
    && (w.m.inflight.Some? ==> w.m.inflight.value == |w.landings|)
    && (w.m.result == if w.landings == [] then None else Some(w.landings[|w.landings| - 1].answer))
    && (w.landings != [] ==> w.landings[|w.landings| - 1].answer != Token(""))
  }

  lemma StepKeepsOrdered(w: World, e: Step)
    requires OneLeader(w) && Ordered(w)
    ensures Ordered(Next(w, e))
  {
    if e.FetchDone? && e.caller in w.callers && w.callers[e.caller].Fetching? {
      assert LeaderIs(w, e.caller);
    }
  }

  /** What a caller holds: a real gate to wait on, a real answer once it has returned. */
  predicate Sound(w: World, c: nat) {
    c in w.callers ==>
      match w.callers[c]
      case Fetching(gate) => true
      case WaitingOn(gate) => gate < w.made
      case Returned(answer, from) => answer != Token("")
  }

  lemma StepKeepsSound(w: World, e: Step, c: nat)
    requires OneLeader(w) && Ordered(w) && Sound(w, c)
    ensures Sound(Next(w, e), c)
  {
  }

  lemma {:induction false} AlwaysSound(steps: seq<Step>, c: nat)
    ensures OneLeader(After(steps)) && Ordered(After(steps)) && Sound(After(steps), c)
  {
    if steps != [] {
      AlwaysSound(steps[..|steps| - 1], c);
      var w := After(steps[..|steps| - 1]);
      StepKeepsOneLeader(w, steps[|steps| - 1]);
      StepKeepsOrdered(w, steps[|steps| - 1]);
      StepKeepsSound(w, steps[|steps| - 1], c);
    }
  }

  /** Main result: in every interleaving at most one fetch is in the air, and nobody is handed an empty
      token as a success. */
  lemma OneFetchAndNoEmptyToken(steps: seq<Step>, c: nat, d: nat)
    ensures var w := After(steps);
            && (c in w.callers && d in w.callers && w.callers[c].Fetching? && w.callers[d].Fetching? ==> c == d)
            && (c in w.callers && w.callers[c].Returned? ==> w.callers[c].answer != Token(""))
  {
    AlwaysSound(steps, c);
  }

  /** Each gate is closed exactly once: the i-th landing is that of the i-th gate. */
  lemma EachGateClosesOnce(steps: seq<Step>)
    ensures var w := After(steps);
            && (forall i :: 0 <= i < |w.landings| ==> w.landings[i].gate == i)
            && w.made == |w.landings| + (if w.m.inflight.Some? then 1 else 0)
  {
    AlwaysSound(steps, 0);
  }

  /** No follower is stranded: the gate it waits on is closed, or its leader is still fetching. */
  lemma NobodyIsStranded(steps: seq<Step>, c: nat)
    requires Waits(After(steps), c)
    ensures var w := After(steps);
            IsClosed(w.landings, w.callers[c].gate)
            || exists l :: l in w.callers && w.callers[l] == Fetching(w.callers[c].gate)
  {
    AlwaysSound(steps, c);
    var w := After(steps);
    var gate := w.callers[c].gate;
    if gate < |w.landings| {
      assert w.landings[gate].gate == gate;
    } else {
      assert w.m.inflight == Some(gate);
    }
  }

  /** A follower's answer is that of the flight it joined or of one that landed later. */
  lemma FollowersGetTheirFlightOrLater(steps: seq<Step>, c: nat)
    requires Waits(After(steps), c) && IsClosed(After(steps).landings, After(steps).callers[c].gate)
    ensures var w, gate := After(steps), After(steps).callers[c].gate;
            var t := Next(w, Wake(c));
            && c in t.callers && t.callers[c].Returned? && t.callers[c].from.Some?
            && gate <= t.callers[c].from.value < |w.landings|
            && w.landings[t.callers[c].from.value].answer == t.callers[c].answer
  {
    AlwaysSound(steps, c);
    var w := After(steps);
    var i :| 0 <= i < |w.landings| && w.landings[i].gate == w.callers[c].gate;
    assert w.landings[|w.landings| - 1].gate == |w.landings| - 1;
  }

  /** Only its own leader closes a gate: the caller named in a landing was the one fetching for it. */
  lemma LeaderClosesItsGate(steps: seq<Step>, e: Step)
    requires |Next(After(steps), e).landings| > |After(steps).landings|
    ensures var w := After(steps);
            var l := Next(w, e).landings[|w.landings|];
            && l.leader in w.callers && w.callers[l.leader] == Fetching(l.gate)
            && w.m.inflight == Some(l.gate) && Next(w, e).m.inflight.None?
  {
    AlwaysSound(steps, 0);
    var w := After(steps);
    assert e.FetchDone? && LeaderIs(w, e.caller);
  }
}
