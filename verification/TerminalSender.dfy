/**
The backend side of a final control: the transport's own retries (SendControl in
internal/backendrpc/client.go) inside the turn's retries (EmitTerminalControl in
internal/miniagent/prompt_result.go), as a step machine and as the two loops that follow it. What the
network makes of the k-th POST is a parameter of the loops; times are milliseconds.
*/
module TerminalSender {
  import opened Options

  const MAX_RETRIES := 3
  const BASE_DELAY := 100
  const MAX_TERMINAL_ATTEMPTS := 4
  const PER_ATTEMPT_TIMEOUT := 5000
  const ACCEPTED := 202

  predicate ClientError(status: nat) {
    400 <= status < 500
  }

  function Pow2(n: nat): nat {
    if n == 0 then 1 else 2 * Pow2(n - 1)
  }

  /** The wait before POST n of one SendControl, counting from 0. */
  function Delay(n: nat): nat {
    if n == 0 then 0 else BASE_DELAY * Pow2(n - 1)
  }

  /** The wait before attempt n of the emission, counting from 1. */
  function Backoff(attempt: nat): nat {
    if attempt <= 2 then 1000 else if attempt == 3 then 2000 else 4000
  }

  /** All the waiting before attempt n. */
  function Waited(n: nat): nat {
    if n <= 1 then 0 else Waited(n - 1) + Backoff(n)
  }

  // ---------------------------------------------------------------- the sender as a machine

  /** Where an emission stands: about to make POST `post` of an attempt that ends at `end`, waiting for its
      reply, waiting to repeat it, waiting for the next attempt, or done. */
  datatype Sender =
    | Ready(attempt: nat, post: nat, end: int)
    | Awaiting(attempt: nat, post: nat, end: int)
    | Pausing(attempt: nat, post: nat, end: int, until: int)
    | BackingOff(attempt: nat, until: int)
    | Done(delivered: bool)

  datatype SenderStep =
    | Issue
    | Answer(status: nat, at: int)
    | Error(at: int)
    | Timeout(at: int)
    | Wake(at: int)
    | Reject(at: int)
    | Shutdown

  function Start(at: int): Sender {
    Ready(1, 0, at + PER_ATTEMPT_TIMEOUT)
  }

  function AttemptFailed(attempt: nat, at: int): Sender {
    if attempt >= MAX_TERMINAL_ATTEMPTS then Done(false)
    else BackingOff(attempt + 1, at + Backoff(attempt + 1))
  }

  /** A POST that may be repeated failed before the attempt's end. */
  function PostFailed(attempt: nat, post: nat, end: int, at: int): Sender {
    if post >= MAX_RETRIES then AttemptFailed(attempt, at)
    else
      var until := at + Delay(post + 1);
      Pausing(attempt, post + 1, end, if until < end then until else end)
  }

  function Answered(s: Sender, status: nat, at: int): Sender
    requires s.Awaiting?
  {
    if status == ACCEPTED then Done(true)
    else if ClientError(status) then AttemptFailed(s.attempt, at)
    else PostFailed(s.attempt, s.post, s.end, at)
  }

  /** A step that is not possible changes nothing. */
  function SenderNext(s: Sender, e: SenderStep): Sender {
    match e
    case Issue => if s.Ready? then Awaiting(s.attempt, s.post, s.end) else s
    case Answer(status, at) => if s.Awaiting? && at < s.end then Answered(s, status, at) else s
    case Error(at) => if s.Awaiting? && at < s.end then PostFailed(s.attempt, s.post, s.end, at) else s
    case Timeout(at) => if s.Awaiting? && at >= s.end then AttemptFailed(s.attempt, at) else s
    case Wake(at) =>
      if s.Pausing? && at >= s.until then
        (if s.until >= s.end then AttemptFailed(s.attempt, at) else Ready(s.attempt, s.post, s.end))
      else if s.BackingOff? && at >= s.until then Ready(s.attempt, 0, at + PER_ATTEMPT_TIMEOUT)
      else s
    case Reject(at) => if s.Ready? then AttemptFailed(s.attempt, at) else s
    case Shutdown => if s.BackingOff? then Done(false) else s
  }

  /** The time by which the sender acts again. */
  function Deadline(s: Sender): Option<int> {
    match s
    case Ready(_, _, end) => Some(end)
    case Awaiting(_, _, end) => Some(end)
    case Pausing(_, _, _, until) => Some(until)
    case BackingOff(_, until) => Some(until)
    case Done(_) => None
  }

  /** An emission begun at t0 is in each of its attempts no later than its waits and timeouts add up to. */
  predicate OnTime(s: Sender, t0: int) {
    match s
    case Ready(a, _, end) => 1 <= a <= MAX_TERMINAL_ATTEMPTS && end <= t0 + Waited(a) + a * PER_ATTEMPT_TIMEOUT
    case Awaiting(a, _, end) => 1 <= a <= MAX_TERMINAL_ATTEMPTS && end <= t0 + Waited(a) + a * PER_ATTEMPT_TIMEOUT
    case Pausing(a, _, end, until) =>
      1 <= a <= MAX_TERMINAL_ATTEMPTS && until <= end <= t0 + Waited(a) + a * PER_ATTEMPT_TIMEOUT
    case BackingOff(a, until) =>
      2 <= a <= MAX_TERMINAL_ATTEMPTS && until <= t0 + Waited(a) + (a - 1) * PER_ATTEMPT_TIMEOUT
    case Done(_) => true
  }

  /** The next attempt, a second, two or four after this one failed; none after the fourth. */
  function AttemptOver(attempt: nat, at: int): Sender {
    if attempt >= 4 then Done(false)
    else BackingOff(attempt + 1, at + if attempt == 1 then 1000 else if attempt == 2 then 2000 else 4000)
  }

  /** What a reply inside the deadline leads to: done on a 202; after a 4xx the next attempt; after
      anything else, a failed connection included, the next POST, 100, 200 or 400 ms later unless the deadline
      comes first, and only after the fourth POST the next attempt. */
  lemma RepliesDecide(attempt: nat, post: nat, end: int, status: nat, at: int)
    requires 1 <= attempt <= 4 && post <= 3 && at < end
    ensures var next := SenderNext(Awaiting(attempt, post, end), Answer(status, at));
            if status == 202 then next == Done(true)
            else if 400 <= status <= 499 || post == 3 then
              next == AttemptOver(attempt, at)
            else
              var until := at + if post == 0 then 100 else if post == 1 then 200 else 400;
              next == Pausing(attempt, post + 1, end, if until < end then until else end)
    ensures SenderNext(Awaiting(attempt, post, end), Error(at)) ==
            SenderNext(Awaiting(attempt, post, end), Answer(503, at))
  {
    assert Delay(1) == 100 && Delay(2) == 200 && Delay(3) == 400;
  }

  /** What the passing of time leads to: no reply by the deadline ends the attempt, and so does a pause that
      reaches it; otherwise the next POST follows the pause, and an attempt of five seconds the backoff. */
  lemma TimersDecide(attempt: nat, post: nat, end: int, until: int, at: int)
    requires 1 <= attempt <= 4
    ensures at >= end ==> SenderNext(Awaiting(attempt, post, end), Timeout(at)) == AttemptOver(attempt, at)
    ensures at >= until ==> SenderNext(Pausing(attempt, post, end, until), Wake(at)) ==
                            if until >= end then AttemptOver(attempt, at) else Ready(attempt, post, end)
    ensures at >= until ==> SenderNext(BackingOff(attempt, until), Wake(at)) == Ready(attempt, 0, at + 5000)
    ensures SenderNext(BackingOff(attempt, until), Shutdown) == Done(false)
    ensures SenderNext(Ready(attempt, post, end), Issue) == Awaiting(attempt, post, end)
  {
  }

  function TimeOf(e: SenderStep): Option<int> {
    match e
    case Issue => None
    case Shutdown => None
    case _ => Some(e.at)
  }

  /** A step taken no later than the sender's deadline keeps the emission on time. */
  lemma StepStaysOnTime(s: Sender, e: SenderStep, t0: int)
    requires OnTime(s, t0)
    requires TimeOf(e).Some? && Deadline(s).Some? ==> TimeOf(e).value <= Deadline(s).value
    ensures OnTime(SenderNext(s, e), t0)
  {
    assert Waited(2) == 1000 && Waited(3) == 3000 && Waited(4) == 7000;
  }

  /** Four attempts of five seconds and the waits between them: an emission on time is over, or its next
      deadline comes, within 27 seconds. */
  lemma SpanIsBounded(s: Sender, t0: int)
    requires OnTime(s, t0)
    ensures Deadline(s).Some? ==> Deadline(s).value <= t0 + 27000
  {
    assert Waited(2) == 1000 && Waited(3) == 3000 && Waited(4) == 7000;
  }

  // ---------------------------------------------------------------- the machine on a given network

  /** The reply to a POST, if one comes, and how long it takes. */
  datatype Reply = Status(status: nat) | Lost
  datatype Post = Post(took: nat, reply: Reply)

  /** Does the control validate, what becomes of the k-th POST, when is the process told to stop. */
  datatype Outside = Outside(valid: bool, net: nat -> Post, shutdownAt: Option<int>)

  function Later(a: int, b: int): int {
    if a < b then b else a
  }

  /** What happens next to a sender that has made `posts` POSTs, the time being `at`. */
  function EventOf(w: Outside, s: Sender, at: int, posts: nat): SenderStep
    requires !s.Done?
  {
    match s
    case Ready(_, _, _) => if w.valid then Issue else Reject(at)
    case Awaiting(_, _, end) =>
      var post := w.net(if posts > 0 then posts - 1 else 0);
      if at + post.took >= end then Timeout(Later(at, end))
      else if post.reply.Status? then Answer(post.reply.status, at + post.took)
      else Error(at + post.took)
    case Pausing(_, _, _, until) => Wake(Later(at, until))
    case BackingOff(_, until) =>
      if w.shutdownAt.Some? && w.shutdownAt.value <= until then Shutdown else Wake(Later(at, until))
  }

  function TimeAfter(w: Outside, e: SenderStep, at: int): int {
    if e.Issue? then at
    else if e.Shutdown? then (if w.shutdownAt.Some? then Later(at, w.shutdownAt.value) else at)
    else e.at
  }

  function AttemptsLeft(a: nat): nat {
    if a < MAX_TERMINAL_ATTEMPTS then MAX_TERMINAL_ATTEMPTS - a else 0
  }

  function PostsLeft(p: nat): nat {
    if p <= MAX_RETRIES then MAX_RETRIES + 1 - p else 0
  }

  /** How much an emission has left to do. */
  function Left(s: Sender): nat {
    match s
    case Ready(a, p, _) => AttemptsLeft(a) * 100 + PostsLeft(p) * 10 + 2
    case Awaiting(a, p, _) => AttemptsLeft(a) * 100 + PostsLeft(p) * 10 + 1
    case Pausing(a, p, _, _) => AttemptsLeft(a) * 100 + PostsLeft(p) * 10 + 3
    case BackingOff(a, _) => AttemptsLeft(a) * 100 + 90
    case Done(_) => 0
  }

  datatype Ending = Ending(delivered: bool, posts: nat, at: int)

  /** The whole of an emission from a state on. */
  function Play(w: Outside, s: Sender, at: int, posts: nat): Ending
    decreases Left(s)
  {
    if s.Done? then Ending(s.delivered, posts, at)
    else
      var e := EventOf(w, s, at, posts);
      Play(w, SenderNext(s, e), TimeAfter(w, e, at), posts + if e.Issue? then 1 else 0)
  }

  // ---------------------------------------------------------------- the loops

  datatype SendError = Invalid | ContextDone | Network | Refused(code: nat)

  function ErrorOf(reply: Reply): SendError {
    if reply.Status? then Refused(reply.status) else Network
  }

  predicate Final(reply: Reply) {
    reply.Status? && (reply.status == ACCEPTED || ClientError(reply.status))
  }

  /** No answer, or one that is neither 202 nor a 4xx. */
  predicate Repeatable(reply: Reply) {
    reply.Status? ==> reply.status != 202 && !(400 <= reply.status <= 499)
  }

  /** The n POSTs from `from` on were answered by something worth retrying, or not at all. */
  predicate Transient(net: nat -> Post, from: nat, n: nat) {
    forall k :: from <= k < from + n ==> !Final(net(k).reply)
  }

  /** When the n-th POST from `from` on would be answered, nothing cut short. */
  function Spent(net: nat -> Post, from: nat, n: nat): nat {
    if n == 0 then 0 else Spent(net, from, n - 1) + Delay(n - 1) + net(from + n - 1).took
  }

  /** Where one POST of an attempt leaves the sender, `at` being when its reply came or was given up. */
  function AfterPost(attempt: nat, post: nat, end: int, at: int, reply: Reply): Sender {
    if at >= end then AttemptFailed(attempt, end)
    else if reply == Status(ACCEPTED) then Done(true)
    else if reply.Status? && ClientError(reply.status) then AttemptFailed(attempt, at)
    else PostFailed(attempt, post, end, at)
  }

  /** Where the retry loop stands before POST `used`. */
  function Retrying(attempt: nat, used: nat, end: int, at: int): Sender {
    if used == 0 then Ready(attempt, 0, end)
    else if at >= end then AttemptFailed(attempt, end)
    else PostFailed(attempt, used - 1, end, at)
  }

  lemma PlayIssue(w: Outside, attempt: nat, post: nat, end: int, at: int, n: nat)
    requires w.valid
    ensures Play(w, Ready(attempt, post, end), at, n) == Play(w, Awaiting(attempt, post, end), at, n + 1)
  {
  }

  lemma UnfoldPlay(w: Outside, s: Sender, at: int, posts: nat)
    requires !s.Done?
    ensures var e := EventOf(w, s, at, posts);
            Play(w, s, at, posts)
            == Play(w, SenderNext(s, e), TimeAfter(w, e, at), posts + if e.Issue? then 1 else 0)
  {
  }

  lemma PlayReply(w: Outside, attempt: nat, post: nat, end: int, at: int, n: nat)
    requires at <= end && n > 0
    ensures var came := at + w.net(n - 1).took;
            var stop := if came >= end then end else came;
            Play(w, Awaiting(attempt, post, end), at, n)
            == Play(w, AfterPost(attempt, post, end, stop, w.net(n - 1).reply), stop, n)
  {
    hide Play;
    var s := Awaiting(attempt, post, end);
    var e := EventOf(w, s, at, n);
    var came := at + w.net(n - 1).took;
    var stop := if came >= end then end else came;
    assert SenderNext(s, e) == AfterPost(attempt, post, end, stop, w.net(n - 1).reply) && TimeAfter(w, e, at) == stop;
    UnfoldPlay(w, s, at, n);
  }

  lemma PlayPost(w: Outside, attempt: nat, post: nat, end: int, at: int, n: nat)
    requires w.valid && at <= end
    ensures var came := at + w.net(n).took;
            var stop := if came >= end then end else came;
            Play(w, Ready(attempt, post, end), at, n)
            == Play(w, AfterPost(attempt, post, end, stop, w.net(n).reply), stop, n + 1)
  {
    hide Play;
    PlayIssue(w, attempt, post, end, at, n);
    PlayReply(w, attempt, post, end, at, n + 1);
  }

  lemma PlayPause(w: Outside, attempt: nat, post: nat, end: int, at: int, n: nat)
    requires 0 < post <= MAX_RETRIES && at < end
    ensures var due := at + Delay(post);
            Play(w, PostFailed(attempt, post - 1, end, at), at, n)
            == if due < end then Play(w, Ready(attempt, post, end), due, n)
               else Play(w, AttemptFailed(attempt, end), end, n)
  {
    hide Play;
    UnfoldPlay(w, PostFailed(attempt, post - 1, end, at), at, n);
  }

  lemma PlayDone(w: Outside, delivered: bool, at: int, n: nat)
    ensures Play(w, Done(delivered), at, n) == Ending(delivered, n, at)
  {
  }

  lemma PlayBackoff(w: Outside, attempt: nat, at: int, n: nat)
    requires 2 <= attempt <= MAX_TERMINAL_ATTEMPTS
    ensures var due := at + Backoff(attempt);
            Play(w, AttemptFailed(attempt - 1, at), at, n)
            == if w.shutdownAt.Some? && w.shutdownAt.value <= due then
                 Ending(false, n, Later(at, w.shutdownAt.value))
               else Play(w, Ready(attempt, 0, due + PER_ATTEMPT_TIMEOUT), due, n)
  {
    hide Play;
    UnfoldPlay(w, AttemptFailed(attempt - 1, at), at, n);
    if w.shutdownAt.Some? {
      PlayDone(w, false, Later(at, w.shutdownAt.value), n);
    }
  }

  lemma PlayReject(w: Outside, attempt: nat, end: int, at: int, n: nat)
    requires !w.valid
    ensures Play(w, Ready(attempt, 0, end), at, n) == Play(w, AttemptFailed(attempt, at), at, n)
  {
  }

  lemma PlayExhausted(w: Outside, at: int, n: nat)
    ensures Play(w, AttemptFailed(MAX_TERMINAL_ATTEMPTS, at), at, n) == Ending(false, n, at)
  {
  }

  /** One round of the retry loop: the wait, unless the deadline cuts it off, and the POST. */
  method TryPost(ghost w: Outside, net: nat -> Post, n: nat, used: nat, budget: nat, elapsed: nat,
                 ghost attempt: nat, ghost start: int)
    returns (posted: bool, reply: Reply, elapsed': nat)
    requires w.valid && w.net == net && used <= MAX_RETRIES
    requires if used == 0 then elapsed <= budget else elapsed < budget
    ensures posted <==> used == 0 || elapsed + Delay(used) < budget
    ensures !posted ==> elapsed' == budget
    ensures posted ==>
              && reply == net(n).reply
              && elapsed' == (var whole := elapsed + Delay(used) + net(n).took;
                              if whole >= budget then budget else whole)
    ensures Play(w, Retrying(attempt, used, start + budget, start + elapsed), start + elapsed, n)
            == if !posted then Play(w, AttemptFailed(attempt, start + budget), start + budget, n)
               else Play(w, AfterPost(attempt, used, start + budget, start + elapsed', reply), start + elapsed', n + 1)
  {
    hide Play;
    reply, elapsed' := Lost, elapsed;
    if used > 0 {
      PlayPause(w, attempt, used, start + budget, start + elapsed, n);
      var delay := BASE_DELAY * Pow2(used - 1);
      if elapsed + delay >= budget {
        return false, reply, budget;
      }
      elapsed' := elapsed + delay;
    }
    PlayPost(w, attempt, used, start + budget, start + elapsed', n);
    reply := net(n).reply;
    elapsed' := if elapsed' + net(n).took >= budget then budget else elapsed' + net(n).took;
    posted := true;
  }

  /** What is known before POST `used`: the time spent, and that nothing final has been answered. */
  predicate StillTrying(net: nat -> Post, from: nat, used: nat, budget: nat, elapsed: nat) {
    && (elapsed < budget || used == 0 ==> elapsed == Spent(net, from, used) && Transient(net, from, used))
    && (elapsed >= budget && used > 0 ==>
          elapsed == budget <= Spent(net, from, used) && Transient(net, from, used - 1))
  }

  lemma OneMoreTry(net: nat -> Post, from: nat, used: nat, budget: nat, elapsed: nat)
    requires StillTrying(net, from, used, budget, elapsed) && (used == 0 || elapsed < budget)
    ensures var whole := elapsed + Delay(used) + net(from + used).took;
            && Spent(net, from, used + 1) == whole
            && Transient(net, from, used)
            && (whole >= budget || !Final(net(from + used).reply) ==>
                  StillTrying(net, from, used + 1, budget, if whole >= budget then budget else whole))
  {
  }

  /**
  What SendControl may end with after `used` POSTs numbered from `from`: nil only for a last reply of 202
  inside the deadline; every earlier POST was answered neither 202 nor 4xx; the time is exactly the
  replies and waits, or the deadline when those would pass it; and inside the deadline an error is that
  of the last reply, which was a 4xx or the fourth.
  */
  predicate Settled(net: nat -> Post, from: nat, budget: nat, err: Option<SendError>, used: nat, elapsed: nat) {
    && 0 < used <= MAX_RETRIES + 1
    && Transient(net, from, used - 1)
    && (err.None? ==> elapsed < budget && net(from + used - 1).reply == Status(ACCEPTED))
    && (if elapsed < budget then elapsed == Spent(net, from, used)
        else elapsed == budget <= Spent(net, from, used) + Delay(used))
    && (err.Some? && elapsed < budget ==>
          && net(from + used - 1).reply != Status(ACCEPTED)
          && err.value == ErrorOf(net(from + used - 1).reply)
          && (Final(net(from + used - 1).reply) || used == MAX_RETRIES + 1))
  }

  /** Where an attempt ends. */
  function AttemptEnded(attempt: nat, at: int, err: Option<SendError>): Sender {
    if err.None? then Done(true) else AttemptFailed(attempt, at)
  }

  /** What a reply, or its absence, means for the loop: the error so far, and whether to stop. */
  method Verdict(reply: Reply, inTime: bool) returns (err: Option<SendError>, stop: bool)
    ensures !inTime ==> err == Some(Network) && !stop
    ensures inTime ==> (stop <==> reply.Status? && (reply.status == 202 || 400 <= reply.status <= 499))
    ensures inTime ==>
              err == if reply == Status(202) then None
                     else if reply.Status? then Some(Refused(reply.status)) else Some(Network)
  {
    if !inTime {
      return Some(Network), false;
    }
    match reply
    case Lost =>
      return Some(Network), false;
    case Status(status) =>
      if status == ACCEPTED {
        return None, true;
      }
      return Some(Refused(status)), 400 <= status < 500;
  }

  /** The retry loop. */
  method SendValid(ghost w: Outside, net: nat -> Post, from: nat, budget: nat, ghost attempt: nat, ghost start: int)
    returns (err: Option<SendError>, used: nat, elapsed: nat)
    requires w.valid && w.net == net
    ensures Settled(net, from, budget, err, used, elapsed)
    ensures Play(w, Ready(attempt, 0, start + budget), start, from)
            == Play(w, AttemptEnded(attempt, start + elapsed, err), start + elapsed, from + used)
  {
    hide Play;
    used, elapsed, err := 0, 0, Some(Network);
    var stop := false;
    while used <= MAX_RETRIES && !stop
      invariant used <= MAX_RETRIES + 1
      invariant if stop then Settled(net, from, budget, err, used, elapsed)
                else err.Some? && StillTrying(net, from, used, budget, elapsed)
      invariant !stop && used > 0 && elapsed < budget ==> err == Some(ErrorOf(net(from + used - 1).reply))
      invariant Play(w, Ready(attempt, 0, start + budget), start, from)
                == Play(w, if stop then AttemptEnded(attempt, start + elapsed, err)
                           else Retrying(attempt, used, start + budget, start + elapsed),
                        start + elapsed, from + used)
      decreases MAX_RETRIES + 1 - used, !stop
    {
      if used > 0 && elapsed >= budget {
        err, stop := Some(ContextDone), true;
      } else {
        OneMoreTry(net, from, used, budget, elapsed);
        var posted, reply;
        posted, reply, elapsed := TryPost(w, net, from + used, used, budget, elapsed, attempt, start);
        if posted {
          used := used + 1;
          err, stop := Verdict(reply, elapsed < budget);
        } else {
          err, stop := Some(ContextDone), true;
        }
      }
    }
  }

  /** One SendControl under a deadline of `budget`; its POSTs are numbered from `from`. It is the machine
      from the start of an attempt to its end. */
  method SendControl(ghost w: Outside, valid: bool, net: nat -> Post, from: nat, budget: nat,
                     ghost attempt: nat, ghost start: int)
    returns (err: Option<SendError>, used: nat, elapsed: nat)
    requires w.valid == valid && w.net == net
    ensures if valid then Settled(net, from, budget, err, used, elapsed)
            else err == Some(Invalid) && used == 0 && elapsed == 0
    ensures used <= MAX_RETRIES + 1 && elapsed <= budget && (valid ==> used > 0)
    ensures valid ==> forall k :: from <= k < from + used - 1 ==> Repeatable(net(k).reply)
    ensures err.None? ==> used > 0 && net(from + used - 1).reply == Status(202)
    ensures valid && err.Some? && elapsed < budget ==>
              match net(from + used - 1).reply
              case Status(status) =>
                status != 202 && err == Some(Refused(status)) && (used == 4 || 400 <= status <= 499)
              case Lost => err == Some(Network) && used == 4
    ensures Play(w, Ready(attempt, 0, start + budget), start, from)
            == Play(w, AttemptEnded(attempt, start + elapsed, err), start + elapsed, from + used)
  {
    hide Play;
    if !valid {
      PlayReject(w, attempt, start + budget, start, from);
      return Some(Invalid), 0, 0;
    }
    err, used, elapsed := SendValid(w, net, from, budget, attempt, start);
  }

  /** What the emission's caller is told, and how many POSTs, attempts and milliseconds it took. */
  datatype Emission = Emission(err: Option<SendError>, posts: nat, attempts: nat, elapsed: nat)

  /** The select between the backoff and the process's shutdown. */
  method WaitForAttempt(attempt: nat, elapsed: nat, shutdownAt: Option<int>) returns (go: bool, at: nat)
    ensures go <==> !(shutdownAt.Some? && shutdownAt.value <= elapsed + Backoff(attempt))
    ensures at == if go then elapsed + Backoff(attempt) else Later(elapsed, shutdownAt.value)
  {
    var backoff := Backoff(attempt);
    if shutdownAt.Some? && shutdownAt.value <= elapsed + backoff {
      return false, if shutdownAt.value <= elapsed then elapsed else shutdownAt.value;
    }
    return true, elapsed + backoff;
  }

  /** The emission as the source runs it; with a client wired it is the machine, whatever the network does. */
  method EmitTerminalControl(rpc: bool, valid: bool, net: nat -> Post, shutdownAt: Option<int>,
                             promptID: string, ctrlPromptID: string)
    returns (e: Emission, sentAs: string)
    ensures sentAs == if ctrlPromptID == "" then promptID else ctrlPromptID
    ensures !rpc ==> e == Emission(None, 0, 0, 0)
    ensures rpc && e.err.None? ==> e.posts > 0 && net(e.posts - 1).reply == Status(ACCEPTED)
    ensures rpc ==> Play(Outside(valid, net, shutdownAt), Start(0), 0, 0) == Ending(e.err.None?, e.posts, e.elapsed)
    ensures e.posts <= MAX_TERMINAL_ATTEMPTS * (MAX_RETRIES + 1)
    ensures e.attempts <= MAX_TERMINAL_ATTEMPTS
    ensures Waited(e.attempts) <= e.elapsed
    ensures e.elapsed <= Waited(MAX_TERMINAL_ATTEMPTS) + MAX_TERMINAL_ATTEMPTS * PER_ATTEMPT_TIMEOUT
    ensures e.err.Some? && e.attempts < MAX_TERMINAL_ATTEMPTS ==> shutdownAt.Some?
    ensures rpc && valid ==> e.posts >= e.attempts >= 1
  {
    hide Play, Settled, SenderNext, EventOf, Spent, AttemptFailed;
    sentAs := ctrlPromptID;
    if sentAs == "" {
      sentAs := promptID;
    }
    if !rpc {
      return Emission(None, 0, 0, 0), sentAs;
    }
    ghost var w := Outside(valid, net, shutdownAt);
    e := Emission(Some(ContextDone), 0, 0, 0);
    var stop := false;
    while e.attempts < MAX_TERMINAL_ATTEMPTS && !stop
      invariant e.attempts <= MAX_TERMINAL_ATTEMPTS && (!stop ==> e.err.Some?)
      invariant e.posts <= e.attempts * (MAX_RETRIES + 1) && (valid ==> e.posts >= e.attempts)
      invariant Waited(e.attempts) <= e.elapsed
      invariant !stop ==> e.elapsed <= Waited(e.attempts) + e.attempts * PER_ATTEMPT_TIMEOUT
      invariant e.elapsed <= Waited(MAX_TERMINAL_ATTEMPTS) + e.attempts * PER_ATTEMPT_TIMEOUT
      invariant e.attempts == 0 ==> e.posts == 0 && e.elapsed == 0 && !stop
      invariant e.err.None? ==> e.posts > 0 && net(e.posts - 1).reply == Status(ACCEPTED)
      invariant stop && e.err.Some? ==> shutdownAt.Some?
      invariant e.attempts > 0 ==>
                  Play(w, Start(0), 0, 0) ==
                  if stop then Ending(e.err.None?, e.posts, e.elapsed)
                  else Play(w, AttemptFailed(e.attempts, e.elapsed), e.elapsed, e.posts)
      decreases MAX_TERMINAL_ATTEMPTS - e.attempts, !stop
    {
      var go := true;
      var begun := e.elapsed;
      if e.attempts > 0 {
        PlayBackoff(w, e.attempts + 1, e.elapsed, e.posts);
        go, begun := WaitForAttempt(e.attempts + 1, e.elapsed, shutdownAt);
      }
      if go {
        var err, used, took := SendControl(w, valid, net, e.posts, PER_ATTEMPT_TIMEOUT, e.attempts + 1, begun);
        e := Emission(err, e.posts + used, e.attempts + 1, begun + took);
        stop := err.None?;
        if stop {
          PlayDone(w, true, e.elapsed, e.posts);
        }
      } else {
        e := e.(err := Some(ContextDone), elapsed := begun);
        stop := true;
      }
    }
    if !stop {
      PlayExhausted(w, e.elapsed, e.posts);
    }
  }
}
