/**
Eviction of silent backends: the health tick (internal/feishufront/ipcserver/ipcserver_health.go) over
the connection table (internal/feishufront/registry.go). A connection is known by a serial number, as Go
tells re-registered connections apart by address; times are integers.
*/
module Health {
  import opened Options
  import opened Runs

  const MAX_MISSED_PONGS := 3

  /** `room` says whether the connection's event channel takes another event. */
  datatype Conn = Conn(id: string, lastSeen: int, missed: nat, room: bool, closed: bool)

  /** The table, every connection ever made, the serials whose removal fired onOffline, and those that a
      re-registration replaced. */
  datatype Registry = Registry(conns: map<string, nat>, info: map<nat, Conn>, offline: seq<nat>,
                               replaced: set<nat>, issued: nat)

  function Begin(): Registry {
    Registry(map[], map[], [], {}, 0)
  }

  // ---------------------------------------------------------------- one connection in one tick

  predicate Fresh(c: Conn, deadline: int) {
    c.lastSeen > deadline
  }

  predicate NeedsPing(c: Conn, deadline: int) {
    !(Fresh(c, deadline) && c.missed == 0)
  }

  predicate Healthy(c: Conn, deadline: int) {
    Fresh(c, deadline) && c.missed < MAX_MISSED_PONGS
  }

  /** The connection's channel takes an event. */
  predicate TakesEvent(c: Conn) {
    !c.closed && c.room
  }

  /** Is a ping put on the connection's channel? */
  predicate TakesPing(c: Conn, deadline: int) {
    NeedsPing(c, deadline) && TakesEvent(c)
  }

  function Flushed(c: Conn, at: Option<int>): Conn {
    if at.Some? then c.(lastSeen := at.value) else c
  }

  function Ponged(c: Conn, at: Option<int>): Conn {
    if at.Some? then c.(missed := 0, lastSeen := at.value) else c
  }

  function Bumped(c: Conn): Conn {
    c.(missed := c.missed + 1)
  }

  /** Send and bump are two steps: a pong may come between them, and is then counted as missed. */
  function Pinged(c: Conn, deadline: int, early: Option<int>): Conn {
    if TakesPing(c, deadline) then Bumped(Ponged(c, early)) else c
  }

  // ---------------------------------------------------------------- the table

  predicate Current(s: Registry, k: nat) {
    k in s.info && s.info[k].id in s.conns && s.conns[s.info[k].id] == k
  }

  predicate Sane(s: Registry) {
    && (forall id :: id in s.conns ==> s.conns[id] in s.info && s.info[s.conns[id]].id == id)
    && (forall k :: k in s.info ==> k < s.issued)
  }

  function Touched(s: Registry, k: nat, c: Conn): Registry {
    s.(info := s.info[k := c])
  }

  /** Unregister and the callback that follows it. */
  function Removed(s: Registry, id: string): Registry
    requires id in s.conns && s.conns[id] in s.info
  {
    var k := s.conns[id];
    s.(conns := s.conns - {id}, info := s.info[k := s.info[k].(closed := true)], offline := s.offline + [k])
  }

  function Joined(s: Registry, id: string, now: int): Registry
    requires Sane(s)
  {
    var t := if id in s.conns then
               var k := s.conns[id];
               s.(info := s.info[k := s.info[k].(closed := true)], replaced := s.replaced + {k})
             else s;
    t.(conns := t.conns[id := t.issued], info := t.info[t.issued := Conn(id, now, 0, true, false)],
       issued := t.issued + 1)
  }

  function Left(s: Registry, id: string, k: nat): Registry
    requires Sane(s)
  {
    if id in s.conns && s.conns[id] == k then Removed(s, id) else s
  }

  /** The pongs that overtake the bump of their own ping, by backend. */
  type Early = map<string, int>

  function EarlyOf(early: Early, id: string): Option<int> {
    if id in early then Some(early[id]) else None
  }

  function PingOne(s: Registry, id: string, deadline: int, early: Early): Registry
    requires Sane(s)
  {
    if id !in s.conns then s
    else Touched(s, s.conns[id], Pinged(s.info[s.conns[id]], deadline, EarlyOf(early, id)))
  }

  function EvictOne(s: Registry, id: string, deadline: int): Registry
    requires Sane(s)
  {
    if id !in s.conns || Healthy(s.info[s.conns[id]], deadline) then s else Removed(s, id)
  }

  lemma SaneAfter(s: Registry, id: string, deadline: int, early: Early)
    requires Sane(s)
    ensures Sane(PingOne(s, id, deadline, early)) && Sane(EvictOne(s, id, deadline))
  {
  }

  function PingAll(s: Registry, ids: seq<string>, deadline: int, early: Early): (t: Registry)
    requires Sane(s)
    ensures Sane(t)
  {
    if ids == [] then s
    else
      var before := PingAll(s, ids[..|ids| - 1], deadline, early);
      SaneAfter(before, ids[|ids| - 1], deadline, early);
      PingOne(before, ids[|ids| - 1], deadline, early)
  }

  function EvictAll(s: Registry, ids: seq<string>, deadline: int): (t: Registry)
    requires Sane(s)
    ensures Sane(t)
  {
    if ids == [] then s
    else
      var before := EvictAll(s, ids[..|ids| - 1], deadline);
      SaneAfter(before, ids[|ids| - 1], deadline, map[]);
      EvictOne(before, ids[|ids| - 1], deadline)
  }

  /** What a ping pass makes of one connection: due if it is not fresh or owes a pong, pinged if its channel
      takes the event, and then owing one more than the pong that came in between has left. */
  predicate PingOutcome(c: Conn, deadline: int, early: Option<int>, d: Conn) {
    var sent := (c.lastSeen <= deadline || c.missed > 0) && !c.closed && c.room;
    && d.id == c.id && d.closed == c.closed && d.room == c.room
    && d.missed == (if !sent then c.missed else if early.Some? then 1 else c.missed + 1)
    && d.lastSeen == (if sent && early.Some? then early.value else c.lastSeen)
  }

  class BackendRegistry {
    var conns: map<string, nat>
    var info: map<nat, Conn>
    var offline: seq<nat>
    ghost var replaced: set<nat>
    var issued: nat

    ghost function View(): Registry
      reads this
    {
      Registry(conns, info, offline, replaced, issued)
    }

    constructor ()
      ensures View() == Begin()
    {
      conns, info, offline, replaced, issued := map[], map[], [], {}, 0;
    }

    method RegisterWithToken(id: string, now: int) returns (k: nat)
      requires Sane(View())
      modifies this
      ensures View() == Joined(old(View()), id, now) && k == old(issued)
      ensures conns == old(conns)[id := k] && k in info && info[k] == Conn(id, now, 0, true, false)
      ensures forall j :: j in old(info) ==>
                && j in info
                && info[j] == (if id in old(conns) && old(conns)[id] == j then old(info)[j].(closed := true)
                               else old(info)[j])
      ensures offline == old(offline)
    {
      if id in conns {
        var prior := conns[id];
        info := info[prior := info[prior].(closed := true)];
        replaced := replaced + {prior};
      }
      k := issued;
      conns := conns[id := k];
      info := info[k := Conn(id, now, 0, true, false)];
      issued := issued + 1;
    }

    method Unregister(id: string) returns (removed: bool)
      requires Sane(View())
      modifies this`conns, this`info
      ensures removed <==> id in old(conns)
      ensures conns == old(conns) - {id}
      ensures info == if removed then old(info)[old(conns)[id] := old(info)[old(conns)[id]].(closed := true)]
                      else old(info)
    {
      if id !in conns {
        return false;
      }
      var k := conns[id];
      info := info[k := info[k].(closed := true)];
      conns := conns - {id};
      return true;
    }

    /** The SSE handler's exit: only a connection still in the table goes offline. */
    method HandlerExit(id: string, k: nat)
      requires Sane(View())
      modifies this
      ensures View() == Left(old(View()), id, k)
      ensures id in old(conns) && old(conns)[id] == k ==>
                && conns == old(conns) - {id} && offline == old(offline) + [k]
                && info == old(info)[k := old(info)[k].(closed := true)]
      ensures !(id in old(conns) && old(conns)[id] == k) ==>
                conns == old(conns) && offline == old(offline) && info == old(info)
    {
      if id in conns && conns[id] == k {
        info := info[k := info[k].(closed := true)];
        conns := conns - {id};
        offline := offline + [k];
      }
    }

    method SendEvent(k: nat) returns (ok: bool)
      requires k in info
      ensures ok <==> !info[k].closed && info[k].room
    {
      if info[k].closed {
        return false;
      }
      return info[k].room;
    }

    /** The control handler's part in a pong. */
    method ResetMissedPongs(k: nat, now: int)
      requires k in info
      modifies this`info
      ensures View() == Touched(old(View()), k, Ponged(old(info)[k], Some(now)))
      ensures info == old(info)[k := old(info)[k].(missed := 0, lastSeen := now)]
    {
      info := info[k := info[k].(missed := 0, lastSeen := now)];
    }

    method BumpMissedPongs(k: nat)
      requires k in info
      modifies this`info
      ensures View() == Touched(old(View()), k, Bumped(old(info)[k]))
      ensures info == old(info)[k := old(info)[k].(missed := old(info)[k].missed + 1)]
    {
      info := info[k := info[k].(missed := info[k].missed + 1)];
    }

    /** The ping loop; `early` are the pongs handled between a send and its bump. */
    method PingPass(ids: seq<string>, deadline: int, early: Early)
      requires Sane(View())
      modifies this`info
      ensures View() == PingAll(old(View()), ids, deadline, early)
    {
      for i := 0 to |ids|
        invariant View() == PingAll(old(View()), ids[..i], deadline, early)
      {
        assert ids[..i + 1][..i] == ids[..i];
        var id := ids[i];
        if id in conns {
          PingBackend(id, deadline, early);
        }
      }
      assert ids[..|ids|] == ids;
    }

    method PingBackend(id: string, deadline: int, early: Early)
      requires Sane(View()) && id in conns
      modifies this`info
      ensures View() == PingOne(old(View()), id, deadline, early)
    {
      var k := conns[id];
      ghost var c := info[k];
      if info[k].lastSeen > deadline && info[k].missed == 0 {
        assert info[k := c] == info;
        return;
      }
      var ok := SendEvent(k);
      if !ok {
        assert info[k := c] == info;
        return;
      }
      if id in early {
        ResetMissedPongs(k, early[id]);
      }
      BumpMissedPongs(k);
      assert info == old(info)[k := Pinged(c, deadline, EarlyOf(early, id))];
    }

    /** Reads the live values, removes what is not healthy and reports each removal once. */
    method EvictPass(ids: seq<string>, deadline: int)
      requires Sane(View())
      modifies this
      ensures View() == EvictAll(old(View()), ids, deadline)
    {
      for i := 0 to |ids|
        invariant View() == EvictAll(old(View()), ids[..i], deadline)
      {
        assert ids[..i + 1][..i] == ids[..i];
        var id := ids[i];
        if id in conns {
          var k := conns[id];
          if !(info[k].lastSeen > deadline && info[k].missed < MAX_MISSED_PONGS) {
            var removed := Unregister(id);
            if removed {
              offline := offline + [k];
            }
          }
        }
      }
      assert ids[..|ids|] == ids;
    }
  }

  // ---------------------------------------------------------------- a tick treats each backend alone

  lemma {:induction false} PingAllAt(s: Registry, ids: seq<string>, deadline: int, early: Early, id: string)
    requires Sane(s) && (forall i, j :: 0 <= i < j < |ids| ==> ids[i] != ids[j])
    ensures var t := PingAll(s, ids, deadline, early);
            && t.conns == s.conns
            && (id in s.conns ==>
                  if id in ids
                  then PingOutcome(s.info[s.conns[id]], deadline, EarlyOf(early, id), t.info[s.conns[id]])
                  else t.info[s.conns[id]] == s.info[s.conns[id]])
  {
    if ids != [] {
      PingAllAt(s, ids[..|ids| - 1], deadline, early, id);
      var last := ids[|ids| - 1];
      assert ids == ids[..|ids| - 1] + [last];
      PingAllAt(s, ids[..|ids| - 1], deadline, early, last);
    }
  }

  /** Main result: an eviction pass removes exactly the listed backends that are not healthy. */
  lemma {:induction false} EvictAllAt(s: Registry, ids: seq<string>, deadline: int, id: string)
    requires Sane(s) && id in s.conns
    ensures var t := EvictAll(s, ids, deadline);
            var c := s.info[s.conns[id]];
            && (id in t.conns <==> id !in ids || (c.lastSeen > deadline && c.missed < 3))
            && (id in t.conns ==> t.conns[id] == s.conns[id] && t.info[t.conns[id]] == c)
            && s.conns[id] in t.info
            && (id !in t.conns ==> s.conns[id] in t.offline && t.info[s.conns[id]] == c.(closed := true))
  {
    if ids != [] {
      EvictAllAt(s, ids[..|ids| - 1], deadline, id);
      assert ids == ids[..|ids| - 1] + [ids[|ids| - 1]];
    }
  }

  // ---------------------------------------------------------------- a backend over many ticks

  /** What happens to one connection around a tick: does a pong come before its ping is counted; is the
      ping written out before the eviction pass, and when; does a pong come before that pass; does one come
      before the next tick. */
  datatype Round = Round(deadline: int, early: Option<int>, flushed: Option<int>, pong: Option<int>,
                         latePong: Option<int>)

  /** The connection as the eviction pass finds it. */
  function AtEviction(c: Conn, r: Round): Conn {
    Ponged(Flushed(Pinged(c, r.deadline, r.early), r.flushed), r.pong)
  }

  /** One tick and the time until the next: None once evicted. */
  function Survives(c: Option<Conn>, r: Round): Option<Conn> {
    if c.None? || !Healthy(AtEviction(c.value, r), r.deadline) then None
    else Some(Ponged(AtEviction(c.value, r), r.latePong))
  }

  function Life(c: Conn, rounds: seq<Round>): Option<Conn> {
    Fold(Survives, Some(c), rounds)
  }

  /** Every ping due is sent, written out after the deadline, and answered before the next tick, be it
      before the ping is even counted. */
  predicate AnswersPings(c: Option<Conn>, r: Round) {
    c.Some? && NeedsPing(c.value, r.deadline) ==>
      && TakesPing(c.value, r.deadline)
      && r.flushed.Some?
      && (r.early.Some? || r.pong.Some? || r.latePong.Some?)
  }

  /** The clock only makes connections look fresher. */
  predicate Forward(r: Round) {
    && (r.flushed.Some? ==> r.flushed.value > r.deadline)
    && (r.pong.Some? ==> r.pong.value > r.deadline)
  }

  lemma AnsweringRound(c: Conn, r: Round)
    requires c.missed <= 1 && AnswersPings(Some(c), r) && Forward(r)
    ensures AtEviction(c, r).missed <= 2 && Healthy(AtEviction(c, r), r.deadline)
    ensures Survives(Some(c), r).Some? && Survives(Some(c), r).value.missed <= 1
  {
  }

  /** Main result: a backend that answers its pings between ticks is never evicted: it owes at most one
      pong when a tick starts, one that overtook its ping's count, and at most two when it is judged. */
  lemma {:induction false} AnsweringBackendsStay(c: Conn, rounds: seq<Round>)
    requires c.missed <= 1
    requires AllAlong(Survives, (x, r) => AnswersPings(x, r) && Forward(r), Some(c), rounds)
    ensures Life(c, rounds).Some? && Life(c, rounds).value.missed <= 1
  {
    if rounds != [] {
      AnsweringBackendsStay(c, rounds[..|rounds| - 1]);
      AnsweringRound(Life(c, rounds[..|rounds| - 1]).value, rounds[|rounds| - 1]);
    }
  }

  /** The overtaking pong is real: an answered ping is still owed when the next tick starts. */
  lemma EarlyPongIsOwed(c: Conn, r: Round)
    requires c.missed == 0 && TakesPing(c, r.deadline) && Forward(r) && r.flushed.Some?
    requires r.early.Some? && r.pong.None? && r.latePong.None?
    ensures AnswersPings(Some(c), r) && Survives(Some(c), r).Some? && Survives(Some(c), r).value.missed == 1
  {
  }

  /** No pong is owed when any of the ticks after these rounds starts. */
  predicate NeverOwes(c: Conn, rounds: seq<Round>) {
    rounds == [] ||
    (NeverOwes(c, rounds[..|rounds| - 1]) && Life(c, rounds).Some? && Life(c, rounds).value.missed == 0)
  }

  /** A ping is answered after it has been counted. */
  predicate AnswersAfterCount(c: Option<Conn>, r: Round) {
    c.Some? && (NeedsPing(c.value, r.deadline) ==> r.pong.Some? || r.latePong.Some?)
  }

  lemma ClearedExactlyWhen(c: Conn, r: Round)
    requires c.missed <= 1 && AnswersPings(Some(c), r) && Forward(r)
    ensures Survives(Some(c), r).Some?
    ensures Survives(Some(c), r).value.missed == 0 <==> AnswersAfterCount(Some(c), r)
  {
  }

  /** Main result: a backend that answers owes nothing at the start of any tick if and only if each of its pings
      has a pong after the ping was counted. */
  lemma {:induction false} NeverOwesExactlyWhen(c: Conn, rounds: seq<Round>)
    requires c.missed <= 1
    requires AllAlong(Survives, (x, r) => AnswersPings(x, r) && Forward(r), Some(c), rounds)
    ensures NeverOwes(c, rounds) <==> AllAlong(Survives, AnswersAfterCount, Some(c), rounds)
  {
    if rounds != [] {
      var before, r := rounds[..|rounds| - 1], rounds[|rounds| - 1];
      NeverOwesExactlyWhen(c, before);
      AnsweringBackendsStay(c, before);
      ClearedExactlyWhen(Life(c, before).value, r);
    }
  }

  /** Pings of one connection that were sent over some ticks. */
  function PingsSent(c: Conn, rounds: seq<Round>): nat {
    if rounds == [] then 0
    else
      var before := Life(c, rounds[..|rounds| - 1]);
      PingsSent(c, rounds[..|rounds| - 1])
      + if before.Some? && TakesPing(before.value, rounds[|rounds| - 1].deadline) then 1 else 0
  }

  predicate NeverPongs(rounds: seq<Round>) {
    forall i :: 0 <= i < |rounds| ==> rounds[i].early.None? && rounds[i].pong.None? && rounds[i].latePong.None?
  }

  /** Main result: a backend that never pongs survives a tick exactly while fewer than three pings have
      been sent and its last write was fresh; the third ping evicts it, however well writes go. */
  lemma {:induction false} SilentBackendsGo(c: Conn, rounds: seq<Round>)
    requires c.missed == 0 && NeverPongs(rounds)
    ensures var l := Life(c, rounds);
            && (l.Some? ==> l.value.missed == PingsSent(c, rounds) < MAX_MISSED_PONGS)
            && (PingsSent(c, rounds) >= MAX_MISSED_PONGS ==> l.None?)
  {
    if rounds != [] {
      SilentBackendsGo(c, rounds[..|rounds| - 1]);
    }
  }

  /** Once a first ping is out every later tick sends another, so a backend that takes pings and never
      pongs is gone by the third tick. */
  lemma SilentIsGoneInThree(c: Conn, r0: Round, r1: Round, r2: Round)
    requires c.missed == 0 && !c.closed && c.room && NeedsPing(c, r0.deadline)
    requires NeverPongs([r0] + [r1] + [r2])
    ensures Life(c, [r0] + [r1] + [r2]).None?
  {
    var rounds := [r0] + [r1] + [r2];
    assert rounds[0] == r0 && rounds[1] == r1 && rounds[2] == r2;
    FoldSnoc(Survives, Some(c), [], r0);
    assert [] + [r0] == [r0];
    FoldSnoc(Survives, Some(c), [r0], r1);
    FoldSnoc(Survives, Some(c), [r0] + [r1], r2);
  }

  // ---------------------------------------------------------------- each removal is reported once

  /** Steps of the checker, of SSE handlers, and of the backends. The checker looks a backend up, sends by a
      second lookup and counts on the first one's connection; it judges under one lock and unregisters under
      another. What it found may be stale each time. */
  datatype Step =
    | Join(id: string, now: int)
    | Leave(id: string, k: nat)
    | LookUp(id: string, deadline: int)
    | SendPing
    | Bump
    | Judge(id: string, deadline: int)
    | Evict(id: string)
    | Flush(k: nat, now: int)
    | Pong(k: nat, now: int)
    | Fill(k: nat, room: bool)

  datatype Looked = Looked(id: string, k: nat)

  /** `looked` is the backend found due for a ping, `owed` the connection on which a ping that was sent is still
      to be counted. */
  datatype World = World(reg: Registry, doomed: set<string>, looked: Option<Looked>, owed: Option<nat>)

  function Next(w: World, e: Step): World {
    var s := w.reg;
    if !Sane(s) then w
    else match e
      case Join(id, now) => w.(reg := Joined(s, id, now))
      case Leave(id, k) => w.(reg := Left(s, id, k))
      case LookUp(id, deadline) =>
        if w.looked.None? && w.owed.None? && id in s.conns && NeedsPing(s.info[s.conns[id]], deadline)
        then w.(looked := Some(Looked(id, s.conns[id])))
        else w
      case SendPing =>
        if w.looked.None? then w
        else
          var to := w.looked.value;
          w.(looked := None,
             owed := if to.id in s.conns && TakesEvent(s.info[s.conns[to.id]]) then Some(to.k) else None)
      case Bump =>
        if w.owed.Some? && w.owed.value in s.info
        then w.(reg := Touched(s, w.owed.value, Bumped(s.info[w.owed.value])), owed := None)
        else w.(owed := None)
      case Judge(id, deadline) =>
        if id in s.conns && !Healthy(s.info[s.conns[id]], deadline) then w.(doomed := w.doomed + {id}) else w
      case Evict(id) =>
        if id !in w.doomed then w
        else w.(reg := if id in s.conns then Removed(s, id) else s, doomed := w.doomed - {id})
      case Flush(k, now) => if k in s.info then w.(reg := Touched(s, k, s.info[k].(lastSeen := now))) else w
      case Pong(k, now) =>
        if Current(s, k) then w.(reg := Touched(s, k, Ponged(s.info[k], Some(now)))) else w
      case Fill(k, room) => if k in s.info then w.(reg := Touched(s, k, s.info[k].(room := room))) else w
  }

  function After(steps: seq<Step>): World {
    Fold(Next, World(Begin(), {}, None, None), steps)
  }

  function Times(ks: seq<nat>, k: nat): nat {
    if ks == [] then 0 else Times(ks[..|ks| - 1], k) + if ks[|ks| - 1] == k then 1 else 0
  }

  lemma TimesSnoc(ks: seq<nat>, x: nat, k: nat)
    ensures Times(ks + [x], k) == Times(ks, k) + if x == k then 1 else 0
  {
    assert (ks + [x])[..|ks|] == ks;
  }

  /** A connection is in the table, open and unreported; or replaced, closed and unreported; or gone,
      closed and reported once. */
  predicate Accounted(s: Registry, k: nat) {
    if k !in s.info then Times(s.offline, k) == 0 && k !in s.replaced
    else if Current(s, k) then !s.info[k].closed && Times(s.offline, k) == 0 && k !in s.replaced
    else s.info[k].closed && Times(s.offline, k) == if k in s.replaced then 0 else 1
  }

  lemma RemovalIsSane(s: Registry, id: string)
    requires Sane(s) && id in s.conns
    ensures Sane(Removed(s, id))
  {
  }

  lemma RemovalIsAccounted(s: Registry, id: string, k: nat)
    requires Sane(s) && Accounted(s, k) && id in s.conns
    ensures Sane(Removed(s, id)) && Accounted(Removed(s, id), k)
  {
    RemovalIsSane(s, id);
    TimesSnoc(s.offline, s.conns[id], k);
    var t := Removed(s, id);
    if k == s.conns[id] {
      assert Current(s, k) && !Current(t, k);
    } else if k in s.info {
      assert t.info[k] == s.info[k];
      assert Current(t, k) == Current(s, k);
    }
  }

  lemma JoinIsAccounted(s: Registry, id: string, now: int, k: nat)
    requires Sane(s) && Accounted(s, k)
    ensures Sane(Joined(s, id, now)) && Accounted(Joined(s, id, now), k)
  {
  }

  lemma TouchIsAccounted(s: Registry, j: nat, c: Conn, k: nat)
    requires Sane(s) && Accounted(s, k) && j in s.info
    requires c.id == s.info[j].id && c.closed == s.info[j].closed
    ensures Sane(Touched(s, j, c)) && Accounted(Touched(s, j, c), k)
  {
  }

  lemma StepIsAccounted(w: World, e: Step, k: nat)
    requires Sane(w.reg) && Accounted(w.reg, k)
    ensures Sane(Next(w, e).reg) && Accounted(Next(w, e).reg, k)
  {
    var s := w.reg;
    match e
    case Join(id, now) => JoinIsAccounted(s, id, now, k);
    case Leave(id, _) =>
      if id in s.conns {
        RemovalIsAccounted(s, id, k);
      }
    case Bump =>
      if w.owed.Some? && w.owed.value in s.info {
        TouchIsAccounted(s, w.owed.value, Bumped(s.info[w.owed.value]), k);
      }
    case Evict(id) =>
      if id in s.conns {
        RemovalIsAccounted(s, id, k);
      }
    case Flush(j, now) =>
      if j in s.info {
        TouchIsAccounted(s, j, s.info[j].(lastSeen := now), k);
      }
    case Pong(j, now) =>
      if Current(s, j) {
        TouchIsAccounted(s, j, Ponged(s.info[j], Some(now)), k);
      }
    case Fill(j, room) =>
      if j in s.info {
        TouchIsAccounted(s, j, s.info[j].(room := room), k);
      }
    case _ =>
  }

  /** Main result: in every interleaving of checks, exits and re-registrations, each connection that is
      removed is reported offline exactly once, one that was replaced never, and what is in the table is
      open. */
  lemma {:induction false} EachRemovalReportedOnce(steps: seq<Step>, k: nat)
    ensures Sane(After(steps).reg) && Accounted(After(steps).reg, k)
  {
    if steps != [] {
      EachRemovalReportedOnce(steps[..|steps| - 1], k);
      StepIsAccounted(After(steps[..|steps| - 1]), steps[|steps| - 1], k);
    }
  }

  predicate Idle(w: World) {
    w.looked.None? && w.owed.None?
  }

  /** Undisturbed, looking up, sending and counting are the ping of one backend in a pass; a pong in between
      is the early one. */
  lemma PingIsItsSteps(w: World, id: string, deadline: int, early: Option<int>)
    requires Sane(w.reg) && Idle(w) && id in w.reg.conns
    ensures var k := w.reg.conns[id];
            var sent := Next(Next(w, LookUp(id, deadline)), SendPing);
            var heard := if early.Some? && sent.owed.Some? then Next(sent, Pong(k, early.value)) else sent;
            var t := Next(heard, Bump);
            && Idle(t) && t.doomed == w.doomed
            && t.reg.info == PingOne(w.reg, id, deadline, if early.Some? then map[id := early.value] else map[]).info
            && t.reg.(info := w.reg.info) == w.reg
  {
    var k := w.reg.conns[id];
    var c := w.reg.info[k];
    assert w.reg.info[k := c] == w.reg.info;
    var sent := Next(Next(w, LookUp(id, deadline)), SendPing);
    assert sent.reg == w.reg && sent.owed == if TakesPing(c, deadline) then Some(k) else None;
    if TakesPing(c, deadline) && early.Some? {
      var d := Ponged(c, early);
      assert Next(sent, Pong(k, early.value)).reg == Touched(w.reg, k, d);
      assert w.reg.info[k := d][k := Bumped(d)] == w.reg.info[k := Bumped(d)];
    }
  }

  /** Undisturbed, judging and evicting are the treatment of one backend in an eviction pass. */
  lemma EvictionIsItsSteps(w: World, id: string, deadline: int)
    requires Sane(w.reg) && id !in w.doomed
    ensures var t := Next(Next(w, Judge(id, deadline)), Evict(id));
            t.reg == EvictOne(w.reg, id, deadline) && t.doomed == w.doomed
  {
  }

  lemma Do(steps: seq<Step>, e: Step)
    ensures After(steps + [e]) == Next(After(steps), e)
  {
    assert (steps + [e])[..|steps|] == steps;
  }

  /** The gap between judging and unregistering is real: a connection that has just been made can be
      evicted on its predecessor's account. */
  lemma FreshConnectionEvicted(id: string, deadline: int) returns (steps: seq<Step>)
    ensures var w := After(steps); Current(w.reg, 1) && Healthy(w.reg.info[1], deadline)
    ensures Times(After(steps + [Evict(id)]).reg.offline, 1) == 1
  {
    steps := [] + [Join(id, deadline)];
    Do([], Join(id, deadline));
    Do(steps, Judge(id, deadline));
    steps := steps + [Judge(id, deadline)];
    Do(steps, Join(id, deadline + 1));
    steps := steps + [Join(id, deadline + 1)];
    Do(steps, Evict(id));
    TimesSnoc([], 1, 1);
    assert [] + [1] == [1 as nat];
  }

  // ---------------------------------------------------------------- stale judgements

  /** The checker is one goroutine: between judging a backend and unregistering it, it does nothing else. */
  predicate Between(steps: seq<Step>) {
    forall i :: 0 <= i < |steps| ==>
      steps[i].Join? || steps[i].Leave? || steps[i].Flush? || steps[i].Pong? || steps[i].Fill?
  }

  /** Was the id registered anew in between? */
  predicate Rejoins(steps: seq<Step>, id: string) {
    steps != [] && (Rejoins(steps[..|steps| - 1], id) || (steps[|steps| - 1].Join? && steps[|steps| - 1].id == id))
  }

  /** Did connection k pong in between? */
  predicate PongedSince(steps: seq<Step>, k: nat) {
    steps != [] && (PongedSince(steps[..|steps| - 1], k) || (steps[|steps| - 1].Pong? && steps[|steps| - 1].k == k))
  }

  /** When connection k last flushed or ponged, `seen` being the time it was judged by. */
  function LastTouch(steps: seq<Step>, k: nat, seen: int): int {
    if steps == [] then seen
    else
      var e := steps[|steps| - 1];
      if (e.Flush? || e.Pong?) && e.k == k then e.now else LastTouch(steps[..|steps| - 1], k, seen)
  }

  /** What is known of the id and of the connection k judged under it: `first` is the next serial at the
      time, the rest what has been seen since. */
  predicate Tracked(t: Registry, id: string, k: nat, first: nat, rejoined: bool, seen: int, missed: nat) {
    && Sane(t) && k < first <= t.issued && k in t.info && t.info[k].id == id
    && (id in t.conns ==> if rejoined then t.conns[id] >= first else t.conns[id] == k)
    && (id in t.conns && t.conns[id] == k ==> t.info[k].lastSeen == seen && t.info[k].missed == missed)
  }

  lemma TrackedStep(w: World, e: Step, id: string, k: nat, first: nat, rejoined: bool, seen: int, missed: nat)
    requires Tracked(w.reg, id, k, first, rejoined, seen, missed)
    requires e.Join? || e.Leave? || e.Flush? || e.Pong? || e.Fill?
    ensures Next(w, e).doomed == w.doomed && Next(w, e).looked == w.looked && Next(w, e).owed == w.owed
    ensures Tracked(Next(w, e).reg, id, k, first,
                    rejoined || (e.Join? && e.id == id),
                    if (e.Flush? || e.Pong?) && e.k == k then e.now else seen,
                    if e.Pong? && e.k == k then 0 else missed)
  {
  }

  lemma {:induction false} TrackedRun(w: World, id: string, k: nat, steps: seq<Step>)
    requires Sane(w.reg) && id in w.reg.conns && w.reg.conns[id] == k && Between(steps)
    ensures var s, u := w.reg, Fold(Next, w, steps);
            && u.doomed == w.doomed && u.looked == w.looked && u.owed == w.owed
            && Tracked(u.reg, id, k, s.issued, Rejoins(steps, id), LastTouch(steps, k, s.info[k].lastSeen),
                       if PongedSince(steps, k) then 0 else s.info[k].missed)
  {
    if steps != [] {
      var n := |steps| - 1;
      assert Between(steps[..n]) by {
        assert forall i :: 0 <= i < n ==> steps[..n][i] == steps[i];
      }
      TrackedRun(w, id, k, steps[..n]);
      var s := w.reg;
      TrackedStep(Fold(Next, w, steps[..n]), steps[n], id, k, s.issued, Rejoins(steps[..n], id),
                  LastTouch(steps[..n], k, s.info[k].lastSeen),
                  if PongedSince(steps[..n], k) then 0 else s.info[k].missed);
    }
  }

  /** Main result: a judged backend still in the table is evicted as another connection exactly when its id
      was registered anew in between; and as the one judged but healthy again exactly when that connection
      has since flushed or ponged past the deadline and either ponged or owed fewer than three. */
  lemma StaleEvictionsExactlyWhen(past: seq<Step>, id: string, deadline: int, steps: seq<Step>)
    requires var s := After(past).reg;
             id in s.conns && s.conns[id] in s.info && !Healthy(s.info[s.conns[id]], deadline)
    requires Between(steps) && id in Fold(Next, Next(After(past), Judge(id, deadline)), steps).reg.conns
    ensures var s := After(past).reg; var k := s.conns[id];
            var u := Fold(Next, Next(After(past), Judge(id, deadline)), steps);
            && Next(u, Evict(id)).reg.offline == u.reg.offline + [u.reg.conns[id]]
            && (u.reg.conns[id] != k <==> Rejoins(steps, id))
            && k in u.reg.info
            && (u.reg.conns[id] == k ==>
                  (Healthy(u.reg.info[k], deadline) <==>
                   && LastTouch(steps, k, s.info[k].lastSeen) > deadline
                   && (PongedSince(steps, k) || s.info[k].missed < MAX_MISSED_PONGS)))
  {
    var w := After(past);
    var k := w.reg.conns[id];
    EachRemovalReportedOnce(past, k);
    TrackedRun(Next(w, Judge(id, deadline)), id, k, steps);
  }

  /** Main result: a ping sent by the second lookup goes to another connection than the one it is counted on
      exactly when the id was registered anew in between, and then the one it is counted on is closed. */
  lemma StalePingsExactlyWhen(past: seq<Step>, id: string, deadline: int, steps: seq<Step>)
    requires var w := After(past); w.looked.None? && w.owed.None? && id in w.reg.conns
    requires var w := After(past); w.reg.conns[id] in w.reg.info && NeedsPing(w.reg.info[w.reg.conns[id]], deadline)
    requires Between(steps)
    requires var u := Fold(Next, Next(After(past), LookUp(id, deadline)), steps).reg;
             id in u.conns && u.conns[id] in u.info && TakesEvent(u.info[u.conns[id]])
    ensures var k := After(past).reg.conns[id];
            var u := Fold(Next, Next(After(past), LookUp(id, deadline)), steps);
            && Next(u, SendPing).owed == Some(k) && Next(u, SendPing).reg == u.reg
            && (u.reg.conns[id] != k <==> Rejoins(steps, id))
            && k in u.reg.info && (u.reg.conns[id] != k ==> u.reg.info[k].closed)
  {
    var k := After(past).reg.conns[id];
    EachRemovalReportedOnce(past, k);
    TrackedRun(Next(After(past), LookUp(id, deadline)), id, k, steps);
    var all := past + [LookUp(id, deadline)] + steps;
    FoldConcat(Next, (_, _) => true, World(Begin(), {}, None, None), past + [LookUp(id, deadline)], steps);
    Do(past, LookUp(id, deadline));
    EachRemovalReportedOnce(all, k);
  }

  // ---------------------------------------------------------------- an answering connection among all the others

  /** Connection `k` of backend `id` followed through a run: the deadline of the tick that has it in hand, and of
      the ping sent last whether it was in this tick, has been written out, and has been answered. */
  datatype Watched = Watched(world: World, id: string, k: nat, tick: Option<int>, sent: bool, flushed: bool,
                             answered: bool)

  function Follow(x: Watched, e: Step): Watched {
    var y := x.(world := Next(x.world, e));
    match e
    case LookUp(id, deadline) => if id == x.id then y.(tick := Some(deadline), sent := false, flushed := false) else y
    case SendPing =>
      if x.world.looked == Some(Looked(x.id, x.k)) then y.(sent := true, flushed := false, answered := false) else y
    case Flush(k, _) => if k == x.k then y.(flushed := true) else y
    case Pong(k, _) => if k == x.k then y.(answered := true) else y
    case Judge(id, _) => if id == x.id then y.(tick := None) else y
    case _ => y
  }

  /** The checker takes the backend through one tick after the other; the connection stays, takes its pings, has
      them written out before it is judged and answers them before it is looked up again, with times after the
      deadline. All other backends do as they like. */
  predicate Answering(x: Watched, e: Step) {
    match e
    case LookUp(id, _) => id == x.id ==> x.tick.None? && x.answered && Idle(x.world)
    case SendPing =>
      x.world.looked == Some(Looked(x.id, x.k)) && x.k in x.world.reg.info ==> TakesEvent(x.world.reg.info[x.k])
    case Judge(id, deadline) => id == x.id ==> x.tick == Some(deadline) && Idle(x.world) && (x.sent ==> x.flushed)
    case Flush(k, now) => k == x.k && x.tick.Some? ==> now > x.tick.value
    case Pong(k, now) => k == x.k && x.tick.Some? ==> now > x.tick.value
    case Join(id, _) => id != x.id
    case Leave(id, k) => id != x.id || k != x.k
    case _ => true
  }

  predicate OneThing(w: World) {
    && (w.looked.Some? ==>
          w.owed.None? && w.looked.value.k in w.reg.info && w.reg.info[w.looked.value.k].id == w.looked.value.id)
    && (w.owed.Some? ==> w.owed.value in w.reg.info)
  }

  /** The connection is in the table, open and not judged unhealthy. */
  predicate Standing(w: World, id: string, k: nat) {
    var s := w.reg;
    && Sane(s) && OneThing(w)
    && id in s.conns && s.conns[id] == k && !s.info[k].closed && id !in w.doomed
  }

  /** What it may owe, at every point of a tick and between ticks. */
  predicate InCredit(x: Watched, c: Conn) {
    var w := x.world;
    var due := w.looked.Some? && w.looked.value.id == x.id;
    && (due ==> w.looked.value.k == x.k && x.tick.Some? && !x.sent)
    && (w.owed == Some(x.k) ==> x.tick.Some? && x.sent)
    && c.missed <= (if w.owed == Some(x.k) then 1 else 2) - (if x.answered then 1 else 0)
    && (x.tick.Some? ==>
          && (!x.sent ==> x.answered)
          && (!x.sent && !due ==> c.missed == 0 && Fresh(c, x.tick.value))
          && (x.sent && x.flushed ==> Fresh(c, x.tick.value)))
  }

  predicate Well(x: Watched) {
    Standing(x.world, x.id, x.k) && InCredit(x, x.world.reg.info[x.k])
  }

  lemma TouchStands(w: World, id: string, k: nat, j: nat, c: Conn)
    requires Standing(w, id, k) && j in w.reg.info
    requires c.id == w.reg.info[j].id && c.closed == w.reg.info[j].closed
    ensures Standing(w.(reg := Touched(w.reg, j, c)), id, k)
    ensures Touched(w.reg, j, c).info[k] == if j == k then c else w.reg.info[k]
  {
  }

  /** A connection touched is this one or another. */
  lemma TouchingStep(x: Watched, e: Step)
    requires Well(x) && Answering(x, e) && (e.Flush? || e.Pong? || e.Fill?)
    ensures Well(Follow(x, e))
  {
    var s := x.world.reg;
    if e.k in s.info {
      var c := s.info[e.k];
      TouchStands(x.world, x.id, x.k, e.k,
                  if e.Flush? then c.(lastSeen := e.now)
                  else if e.Pong? then Ponged(c, Some(e.now))
                  else c.(room := e.room));
    }
    assert Sane(s) && (e.k == x.k ==> Current(s, e.k));
    hide Standing, Touched, Sane, Current;
  }

  lemma LookingStep(x: Watched, e: Step)
    requires Well(x) && Answering(x, e) && (e.LookUp? || e.SendPing?)
    ensures Well(Follow(x, e))
  {
  }

  lemma JudgingStep(x: Watched, e: Step)
    requires Well(x) && Answering(x, e) && e.Judge?
    ensures Well(Follow(x, e))
  {
  }

  lemma EvictingStep(x: Watched, e: Step)
    requires Well(x) && Answering(x, e) && e.Evict?
    ensures Well(Follow(x, e))
  {
  }

  lemma TableStep(x: Watched, e: Step)
    requires Well(x) && Answering(x, e) && (e.Join? || e.Leave?)
    ensures Well(Follow(x, e))
  {
  }

  lemma CountingStep(x: Watched, e: Step)
    requires Well(x) && e.Bump?
    ensures Well(Follow(x, e))
  {
  }

  lemma AnsweringStep(x: Watched, e: Step)
    requires Well(x) && Answering(x, e)
    ensures Well(Follow(x, e))
  {
    hide Well, Answering, Follow;
    match e
    case LookUp(_, _) => LookingStep(x, e);
    case SendPing => LookingStep(x, e);
    case Judge(_, _) => JudgingStep(x, e);
    case Evict(_) => EvictingStep(x, e);
    case Join(_, _) => TableStep(x, e);
    case Leave(_, _) => TableStep(x, e);
    case Bump => CountingStep(x, e);
    case _ => TouchingStep(x, e);
  }

  lemma {:induction false} AnsweringRun(x: Watched, steps: seq<Step>)
    requires Well(x) && AllAlong(Follow, Answering, x, steps)
    ensures var y := Fold(Follow, x, steps);
            Well(y) && y.id == x.id && y.k == x.k && y.world == Fold(Next, x.world, steps)
  {
    hide Well, Answering, Next;
    if steps != [] {
      AnsweringRun(x, steps[..|steps| - 1]);
      AnsweringStep(Fold(Follow, x, steps[..|steps| - 1]), steps[|steps| - 1]);
    }
  }

  /** Main result: from any point of any run, a connection in the table that owes at most one pong and answers from
      then on stays in the table, owes two at most, and is not reported offline, whatever all other backends and
      handlers do in between. */
  lemma AnsweringConnectionStays(past: seq<Step>, id: string, k: nat, steps: seq<Step>)
    requires var w := After(past);
             && Idle(w) && id !in w.doomed && id in w.reg.conns && w.reg.conns[id] == k
             && k in w.reg.info && w.reg.info[k].missed <= 1
    requires AllAlong(Follow, Answering, Watched(After(past), id, k, None, false, false, true), steps)
    ensures var t := After(past + steps).reg;
            id in t.conns && t.conns[id] == k && k in t.info && t.info[k].missed <= 2 && Times(t.offline, k) == 0
    ensures var y := Fold(Follow, Watched(After(past), id, k, None, false, false, true), steps);
            y.tick.None? && y.answered ==> After(past + steps).reg.info[k].missed <= 1
  {
    var x := Watched(After(past), id, k, None, false, false, true);
    EachRemovalReportedOnce(past, k);
    assert Well(x);
    AnsweringRun(x, steps);
    FoldConcat(Next, (_, _) => true, World(Begin(), {}, None, None), past, steps);
    EachRemovalReportedOnce(past + steps, k);
  }
}
